/** The serial delete-keys driver: list every key, delete the first half of
    the listing, then read each key whose delete returned and require that
    the store counts zero entries for it. The store is a class whose map
    the deletes update; whether a request reaches it is an input. */
module DeleteKeys {
  import opened Wrappers

  /** The cluster's key/value map, changed in place by deletes. */
  class Etcd {
    var kv: map<string, string>

    constructor (kv: map<string, string>)
      ensures this.kv == kv
    {
      this.kv := kv;
    }

    /** A single-key get's resp.Count: 1 when the key is stored, else 0. */
    function Count(key: string): (n: nat)
      reads this
      ensures n == 0 <==> key !in kv
      ensures n <= 1
    {
      if key in kv then 1 else 0
    }

    /** cli.Delete: when the request reaches the store the key is gone and
        no error is returned; otherwise the error is returned and nothing
        changes. */
    method Delete(key: string, reached: bool) returns (err: bool)
      modifies this
      ensures err <==> !reached
      ensures reached ==> kv == old(kv) - {key}
      ensures !reached ==> kv == old(kv)
    {
      if reached {
        kv := kv - {key};
      }
      return !reached;
    }
  }

  /** keys[:len(keys)/2]: the first half, rounded down. */
  function FirstHalf(keys: seq<string>): (half: seq<string>)
    ensures 2 * |half| <= |keys| <= 2 * |half| + 1
    ensures half <= keys
  {
    keys[..|keys| / 2]
  }

  /** deleted_keys: the keys whose delete returned no error, in order;
      ok(i) says whether the i-th delete reached the store. */
  function Succeeded(keys: seq<string>, ok: nat -> bool): seq<string>
  {
    if keys == [] then []
    else Succeeded(keys[..|keys| - 1], ok) + if ok(|keys| - 1) then [keys[|keys| - 1]] else []
  }

  /** A key is in deleted_keys only if it was chosen and its delete
      returned; every chosen key whose delete returned is in it. */
  lemma {:induction false} SucceededMembers(keys: seq<string>, ok: nat -> bool)
    ensures forall k :: k in Succeeded(keys, ok) ==> k in keys
    ensures forall k :: k in Succeeded(keys, ok) ==> exists i :: 0 <= i < |keys| && ok(i) && keys[i] == k
    ensures forall i :: 0 <= i < |keys| && ok(i) ==> keys[i] in Succeeded(keys, ok)
    ensures |Succeeded(keys, ok)| <= |keys|
  {
    if keys != [] {
      SucceededMembers(keys[..|keys| - 1], ok);
      forall i | 0 <= i < |keys| && ok(i) ensures keys[i] in Succeeded(keys, ok) {
        if i < |keys| - 1 {
          assert keys[i] == keys[..|keys| - 1][i];
        }
      }
    }
  }

  /** The map after removing the keys one by one. */
  function Removed(kv: map<string, string>, keys: seq<string>): map<string, string>
  {
    if keys == [] then kv else Removed(kv, keys[..|keys| - 1]) - {keys[|keys| - 1]}
  }

  /** Removing keys leaves exactly the other entries, with their values. */
  lemma {:induction false} RemovedEntries(kv: map<string, string>, keys: seq<string>)
    ensures forall k :: k in Removed(kv, keys) <==> k in kv && k !in keys
    ensures forall k :: k in Removed(kv, keys) ==> Removed(kv, keys)[k] == kv[k]
  {
    if keys != [] {
      RemovedEntries(kv, keys[..|keys| - 1]);
      assert keys == keys[..|keys| - 1] + [keys[|keys| - 1]];
    }
  }

  /** The values handed to the Always assertion: one per get that reached
      the store, true when that key counts zero entries. */
  function Verdicts(deleted: seq<string>, getOk: nat -> bool, kv: map<string, string>): seq<bool>
  {
    if deleted == [] then []
    else
      var k := deleted[|deleted| - 1];
      Verdicts(deleted[..|deleted| - 1], getOk, kv) + if getOk(|deleted| - 1) then [k !in kv] else []
  }

  /** The number of gets that reached the store. */
  function ReachedCount(n: nat, getOk: nat -> bool): nat
  {
    if n == 0 then 0 else ReachedCount(n - 1, getOk) + if getOk(n - 1) then 1 else 0
  }

  /** Against a store that no one else writes, every verdict holds: each
      deleted key is really gone, and there is one verdict per get that
      reached the store. */
  lemma {:induction false} DeletedKeysReadAsAbsent(kv: map<string, string>, deleted: seq<string>, getOk: nat -> bool)
    requires forall k :: k in deleted ==> k !in kv
    ensures |Verdicts(deleted, getOk, kv)| == ReachedCount(|deleted|, getOk)
    ensures forall i :: 0 <= i < |Verdicts(deleted, getOk, kv)| ==> Verdicts(deleted, getOk, kv)[i]
  {
    if deleted != [] {
      var init := deleted[..|deleted| - 1];
      assert forall k :: k in init ==> k in deleted;
      DeletedKeysReadAsAbsent(kv, init, getOk);
    }
  }

  /** How a run ends: os.Exit(0) when listing the keys fails, otherwise
      the keys deleted and the Always verdicts of the check. */
  datatype DeleteRun = ListingFailed | Checked(deleted: seq<string>, verdicts: seq<bool>)

  /** DeleteKeys: `listing` is how the get of every key comes out (the
      keys of resp.Kvs, in response order), deleteOk(i) whether the delete
      of the i-th chosen key reaches the store, getOk(i) whether the check
      of the i-th deleted key does. */
  method DeleteKeys(etcd: Etcd, listing: CallResult<seq<string>>, deleteOk: nat -> bool, getOk: nat -> bool)
    returns (run: DeleteRun)
    modifies etcd
    ensures listing.Raised? ==> run == ListingFailed && etcd.kv == old(etcd.kv)
    ensures listing.Returned? ==> run.Checked?
    ensures run.Checked? ==> run.deleted == Succeeded(FirstHalf(listing.value), deleteOk)
    ensures run.Checked? ==> etcd.kv == Removed(old(etcd.kv), run.deleted)
    ensures run.Checked? ==> run.verdicts == Verdicts(run.deleted, getOk, etcd.kv)
  {
    if listing.Raised? {
      return ListingFailed;
    }
    var keys: seq<string> := [];
    for i := 0 to |listing.value|
      invariant keys == listing.value[..i]
    {
      keys := keys + [listing.value[i]];
    }
    assert keys == listing.value;
    var half := |keys| / 2;
    var halfKeys := keys[..half];

    var deleted: seq<string> := [];
    ghost var start := etcd.kv;
    for i := 0 to |halfKeys|
      invariant deleted == Succeeded(halfKeys[..i], deleteOk)
      invariant etcd.kv == Removed(start, deleted)
    {
      assert halfKeys[..i + 1][..i] == halfKeys[..i];
      var err := etcd.Delete(halfKeys[i], deleteOk(i));
      if !err {
        deleted := deleted + [halfKeys[i]];
      }
    }
    assert halfKeys[..|halfKeys|] == halfKeys;

    var verdicts: seq<bool> := [];
    for i := 0 to |deleted|
      invariant verdicts == Verdicts(deleted[..i], getOk, etcd.kv)
    {
      assert deleted[..i + 1][..i] == deleted[..i];
      if !getOk(i) {
        continue;
      }
      var count := etcd.Count(deleted[i]);
      verdicts := verdicts + [count == 0];
    }
    assert deleted[..|deleted|] == deleted;
    return Checked(deleted, verdicts);
  }

  /** What the check promises: when no one else writes the store, every
      Always verdict of a run holds, one per get that reached the store;
      the deleted keys are among the first half of the listing; and every
      other key keeps its value. */
  lemma {:induction false} DeleteRunHolds(before: map<string, string>, listing: seq<string>, deleteOk: nat -> bool, getOk: nat -> bool)
    ensures var deleted := Succeeded(FirstHalf(listing), deleteOk);
      var after := Removed(before, deleted);
      && |Verdicts(deleted, getOk, after)| == ReachedCount(|deleted|, getOk)
      && (forall i :: 0 <= i < |Verdicts(deleted, getOk, after)| ==> Verdicts(deleted, getOk, after)[i])
      && (forall k :: k in deleted ==> k in FirstHalf(listing))
      && (forall k :: k in before && k !in FirstHalf(listing) ==> k in after && after[k] == before[k])
  {
    var half := FirstHalf(listing);
    var deleted := Succeeded(half, deleteOk);
    var after := Removed(before, deleted);
    SucceededMembers(half, deleteOk);
    RemovedEntries(before, deleted);
    DeletedKeysReadAsAbsent(after, deleted, getOk);
  }
}
