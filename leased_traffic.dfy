/** The lease driver: it puts random keys, some attached to one session
    lease, checks that successful puts read back, revokes the lease, and
    checks that the leased keys are gone and the others remain. The cluster
    is a store plus the set of keys attached to the session lease; each get
    a validator makes either reaches the store or raises. */
module LeasedTraffic {
  import opened Wrappers
  import opened Helper

  /** One successful put, as kvs records it. */
  datatype KvRecord = KvRecord(key: string, value: string, hasLease: bool)

  /** What the random source and the store give the i-th put: draws for the
      key, the value and the lease coin, and whether the put returned. */
  datatype PutAttempt = PutAttempt(keyDraw: nat -> nat, valueDraw: nat -> nat, leaseDraw: nat, put: CallResult<()>)

  /** bool(generate_requests() % 2): an odd count attaches the lease. */
  function UsesLease(draw: nat): (attach: bool)
    ensures attach <==> draw % 2 == 0
  {
    CountParity(draw);
    GenerateRequests(draw) % 2 == 1
  }

  /** draw % 100 + 1 is odd exactly when draw is even, since 100 is. */
  lemma {:induction false} CountParity(draw: nat)
    ensures GenerateRequests(draw) % 2 == 1 <==> draw % 2 == 0
  {
    var q, r := draw / 100, draw % 100;
    assert draw == 2 * (50 * q) + r;
    assert GenerateRequests(draw) == r + 1;
  }

  /** Both outcomes of the lease coin occur. */
  lemma {:induction false} LeaseCoinTakesBothValues()
    ensures UsesLease(0) && !UsesLease(1)
  {
  }

  /** The record the i-th attempt would add, were the put to return. */
  function Attempted(a: PutAttempt): KvRecord
  {
    KvRecord(RandomValue(a.keyDraw), RandomValue(a.valueDraw), UsesLease(a.leaseDraw))
  }

  /** kvs after the first n attempts: the records of the puts that
      returned, in order. */
  function SuccessfulPuts(n: nat, attempt: nat -> PutAttempt): seq<KvRecord>
  {
    if n == 0 then []
    else SuccessfulPuts(n - 1, attempt) + if attempt(n - 1).put.Returned? then [Attempted(attempt(n - 1))] else []
  }

  /** kvs holds exactly the puts that returned: no more entries than
      attempts, each one an attempt's record. */
  lemma {:induction false} SuccessfulPutsAreAttempts(n: nat, attempt: nat -> PutAttempt)
    ensures |SuccessfulPuts(n, attempt)| <= n
    ensures forall r :: r in SuccessfulPuts(n, attempt) ==>
      exists i :: 0 <= i < n && attempt(i).put.Returned? && r == Attempted(attempt(i))
  {
    if n > 0 {
      SuccessfulPutsAreAttempts(n - 1, attempt);
    }
  }

  /** The store after the recorded puts, later puts winning. */
  function ApplyPuts(store: Store, kvs: seq<KvRecord>): Store
  {
    if kvs == [] then store
    else
      var last := kvs[|kvs| - 1];
      ApplyPuts(store, kvs[..|kvs| - 1])[last.key := last.value]
  }

  /** The keys attached to the lease after the recorded puts: a put with
      the lease attaches its key, one without detaches it. */
  function LeasedAfter(leased: set<string>, kvs: seq<KvRecord>): set<string>
  {
    if kvs == [] then leased
    else
      var last := kvs[|kvs| - 1];
      var before := LeasedAfter(leased, kvs[..|kvs| - 1]);
      if last.hasLease then before + {last.key} else before - {last.key}
  }

  predicate DistinctKeys(kvs: seq<KvRecord>)
  {
    forall i, j :: 0 <= i < j < |kvs| ==> kvs[i].key != kvs[j].key
  }

  /** With distinct keys, every recorded key holds its value afterwards and
      is attached to the lease exactly when it was put with it. */
  lemma {:induction false} AppliedPutsStay(store: Store, kvs: seq<KvRecord>)
    requires DistinctKeys(kvs)
    ensures forall i :: 0 <= i < |kvs| ==>
      kvs[i].key in ApplyPuts(store, kvs) && ApplyPuts(store, kvs)[kvs[i].key] == kvs[i].value
      && (kvs[i].key in LeasedAfter({}, kvs) <==> kvs[i].hasLease)
  {
    if kvs != [] {
      var init := kvs[..|kvs| - 1];
      AppliedPutsStay(store, init);
      forall i | 0 <= i < |kvs| - 1 ensures kvs[i] == init[i] && kvs[i].key != kvs[|kvs| - 1].key {
      }
    }
  }

  /** validate_puts' check on one record: a failed get is skipped, a
      successful one must read the recorded value. */
  predicate PutMatches(kv: KvRecord, answer: CallResult<Option<string>>)
  {
    var r := GetRequest(answer);
    !r.success || r.value == Some(kv.value)
  }

  /** validate_keys_with_revoked_lease's check: an unleased key is
      skipped; a leased one must read no value (a failed get reads none). */
  predicate LeasedKeyGone(kv: KvRecord, answer: CallResult<Option<string>>)
  {
    !kv.hasLease || GetRequest(answer).value.None?
  }

  /** validate_keys_persist's check: a leased key or a failed get is
      skipped; otherwise the key must still have a value. */
  predicate UnleasedKeyKept(kv: KvRecord, answer: CallResult<Option<string>>)
  {
    var r := GetRequest(answer);
    kv.hasLease || !r.success || r.value.Some?
  }

  function PutChecks(kvs: seq<KvRecord>, answer: nat -> CallResult<Option<string>>): seq<bool>
  {
    seq(|kvs|, i requires 0 <= i < |kvs| => PutMatches(kvs[i], answer(i)))
  }

  function GoneChecks(kvs: seq<KvRecord>, answer: nat -> CallResult<Option<string>>): seq<bool>
  {
    seq(|kvs|, i requires 0 <= i < |kvs| => LeasedKeyGone(kvs[i], answer(i)))
  }

  function KeptChecks(kvs: seq<KvRecord>, answer: nat -> CallResult<Option<string>>): seq<bool>
  {
    seq(|kvs|, i requires 0 <= i < |kvs| => UnleasedKeyKept(kvs[i], answer(i)))
  }

  /** validate_puts: `answer(i)` is how the get for kvs[i] comes out. True
      when every successful get reads the recorded value; otherwise false
      with (value, database value) of the first mismatch. */
  method ValidatePuts(kvs: seq<KvRecord>, answer: nat -> CallResult<Option<string>>)
    returns (ok: bool, mismatch: Option<(string, Option<string>)>)
    ensures ok <==> forall i :: 0 <= i < |kvs| ==> PutMatches(kvs[i], answer(i))
    ensures ok ==> mismatch.None?
    ensures !ok ==> var k := FirstFalse(PutChecks(kvs, answer));
      k < |kvs| && mismatch == Some((kvs[k].value, GetRequest(answer(k)).value))
  {
    for i := 0 to |kvs|
      invariant forall j :: 0 <= j < i ==> PutMatches(kvs[j], answer(j))
    {
      var r := GetRequest(answer(i));
      if r.success && Some(kvs[i].value) != r.value {
        assert !PutChecks(kvs, answer)[i];
        assert forall j :: 0 <= j < i ==> PutChecks(kvs, answer)[j];
        return false, Some((kvs[i].value, r.value));
      }
    }
    return true, None;
  }

  /** validate_keys_with_revoked_lease: true when no leased key reads a
      value; otherwise false with the first leased key that still does. */
  method ValidateKeysWithRevokedLease(kvs: seq<KvRecord>, answer: nat -> CallResult<Option<string>>)
    returns (ok: bool, persisted: Option<string>)
    ensures ok <==> forall i :: 0 <= i < |kvs| ==> LeasedKeyGone(kvs[i], answer(i))
    ensures ok ==> persisted.None?
    ensures !ok ==> var k := FirstFalse(GoneChecks(kvs, answer));
      k < |kvs| && kvs[k].hasLease && persisted == Some(kvs[k].key)
  {
    for i := 0 to |kvs|
      invariant forall j :: 0 <= j < i ==> LeasedKeyGone(kvs[j], answer(j))
    {
      if !kvs[i].hasLease {
        continue;
      }
      var r := GetRequest(answer(i));
      if r.value.Some? {
        assert !GoneChecks(kvs, answer)[i];
        assert forall j :: 0 <= j < i ==> GoneChecks(kvs, answer)[j];
        return false, Some(kvs[i].key);
      }
    }
    return true, None;
  }

  /** validate_keys_persist: true when every unleased key that can be read
      still has a value; otherwise false with the first one that has
      none. */
  method ValidateKeysPersist(kvs: seq<KvRecord>, answer: nat -> CallResult<Option<string>>)
    returns (ok: bool, removed: Option<string>)
    ensures ok <==> forall i :: 0 <= i < |kvs| ==> UnleasedKeyKept(kvs[i], answer(i))
    ensures ok ==> removed.None?
    ensures !ok ==> var k := FirstFalse(KeptChecks(kvs, answer));
      k < |kvs| && !kvs[k].hasLease && removed == Some(kvs[k].key)
  {
    for i := 0 to |kvs|
      invariant forall j :: 0 <= j < i ==> UnleasedKeyKept(kvs[j], answer(j))
    {
      if kvs[i].hasLease {
        continue;
      }
      var r := GetRequest(answer(i));
      if r.success && r.value.None? {
        assert !KeptChecks(kvs, answer)[i];
        assert forall j :: 0 <= j < i ==> KeptChecks(kvs, answer)[j];
        return false, Some(kvs[i].key);
      }
    }
    return true, None;
  }

  /** A get that cannot reach the store never fails the revoked-lease
      check, and never fails the other two either. */
  lemma {:induction false} FailedGetsPass(kv: KvRecord, e: string)
    ensures LeasedKeyGone(kv, Raised(e))
    ensures UnleasedKeyKept(kv, Raised(e)) && PutMatches(kv, Raised(e))
  {
  }

  /** The gets of a validator against `store`: the one for kvs[i] reaches
      it when reach(i) holds and raises otherwise. */
  function Answers(store: Store, kvs: seq<KvRecord>, reach: nat -> bool): nat -> CallResult<Option<string>>
  {
    (i: nat) => if i < |kvs| && reach(i) then Returned(Lookup(store, kvs[i].key)) else Raised("unavailable")
  }

  lemma {:induction false} AnswersAt(store: Store, kvs: seq<KvRecord>, reach: nat -> bool, i: nat)
    requires i < |kvs|
    ensures Answers(store, kvs, reach)(i) ==
      if reach(i) then Returned(Lookup(store, kvs[i].key)) else Raised("unavailable")
  {
  }

  /** The cluster as the lease driver sees it. */
  class Cluster {
    var store: Store
    var leased: set<string>

    constructor (store: Store)
      ensures this.store == store && leased == {}
    {
      this.store := store;
      leased := {};
    }

    /** client.lease(): a fresh lease with no key attached. */
    method GrantLease()
      modifies this`leased
      ensures leased == {} && store == old(store)
    {
      leased := {};
    }

    /** A put that returned: the key takes the value and is attached to the
        lease exactly when the put named it. */
    method ApplyPut(key: string, value: string, useLease: bool)
      modifies this
      ensures store == old(store)[key := value]
      ensures leased == if useLease then old(leased) + {key} else old(leased) - {key}
    {
      store := store[key := value];
      leased := if useLease then leased + {key} else leased - {key};
    }

    /** lease.revoke(): when the call reaches the cluster, the keys
        attached to the lease are deleted; when it raises, nothing
        changes. */
    method Revoke(reaches: bool) returns (revoked: bool)
      modifies this
      ensures revoked <==> reaches
      ensures reaches ==> store == old(store) - old(leased) && leased == {}
      ensures !reaches ==> store == old(store) && leased == old(leased)
    {
      if !reaches {
        return false;
      }
      store := store - leased;
      leased := {};
      return true;
    }

    /** simulate_traffic: grants the lease and makes `n` put attempts
        (n = generate_requests()); kvs records the puts that returned, in
        order, and the store takes their values. */
    method SimulateTraffic(countDraw: nat, attempt: nat -> PutAttempt) returns (kvs: seq<KvRecord>)
      modifies this
      ensures kvs == SuccessfulPuts(GenerateRequests(countDraw), attempt)
      ensures store == ApplyPuts(old(store), kvs)
      ensures leased == LeasedAfter({}, kvs)
    {
      var n := GenerateRequests(countDraw);
      GrantLease();
      kvs := [];
      for i := 0 to n
        invariant kvs == SuccessfulPuts(i, attempt)
        invariant store == ApplyPuts(old(store), kvs)
        invariant leased == LeasedAfter({}, kvs)
      {
        var a := attempt(i);
        var key := GenerateRandomString(a.keyDraw);
        var value := GenerateRandomString(a.valueDraw);
        var useLease := GenerateRequests(a.leaseDraw) % 2 == 1;
        var (success, _) := PutRequest(a.put);
        if success {
          ApplyPut(key, value, useLease);
          var record := KvRecord(key, value, useLease);
          assert (kvs + [record])[..|kvs|] == kvs;
          kvs := kvs + [record];
        }
      }
    }
  }

  /** __main__: traffic, then validate_puts on the store as the puts left
      it, then the revocation, then the two lease checks on the store
      without the leased keys. reach(0), reach(1), reach(2) say which gets
      of the three validators reach the store. A revocation that raises
      ends the script: the store keeps the leased keys and neither lease
      check runs (None). */
  method LeasedSession(cluster: Cluster, countDraw: nat, attempt: nat -> PutAttempt, revokes: bool, reach: nat -> nat -> bool)
    returns (consistent: bool, leasedRemoved: Option<bool>, unleasedKept: Option<bool>)
    modifies cluster
    ensures var kvs := SuccessfulPuts(GenerateRequests(countDraw), attempt);
      var written := ApplyPuts(old(cluster.store), kvs);
      var revoked := written - LeasedAfter({}, kvs);
      && (consistent <==> forall i :: 0 <= i < |kvs| ==> PutMatches(kvs[i], Answers(written, kvs, reach(0))(i)))
      && (!revokes ==> leasedRemoved.None? && unleasedKept.None? && cluster.store == written)
      && (revokes ==>
            && leasedRemoved.Some? && unleasedKept.Some?
            && (leasedRemoved.value <==> forall i :: 0 <= i < |kvs| ==> LeasedKeyGone(kvs[i], Answers(revoked, kvs, reach(1))(i)))
            && (unleasedKept.value <==> forall i :: 0 <= i < |kvs| ==> UnleasedKeyKept(kvs[i], Answers(revoked, kvs, reach(2))(i)))
            && cluster.store == revoked)
  {
    var kvs := cluster.SimulateTraffic(countDraw, attempt);
    var mismatch, persisted, removed;
    consistent, mismatch := ValidatePuts(kvs, Answers(cluster.store, kvs, reach(0)));
    var revoked := cluster.Revoke(revokes);
    if !revoked {
      return consistent, None, None;
    }
    var gone, kept;
    gone, persisted := ValidateKeysWithRevokedLease(kvs, Answers(cluster.store, kvs, reach(1)));
    kept, removed := ValidateKeysPersist(kvs, Answers(cluster.store, kvs, reach(2)));
    leasedRemoved, unleasedKept := Some(gone), Some(kept);
  }

  /** A cluster that keeps what it acknowledged passes all three checks
      whichever gets fail, provided the random keys are distinct: values
      read back, leased keys are gone after revocation, the others stay. */
  lemma {:induction false} FaithfulClusterPasses(store: Store, kvs: seq<KvRecord>, reach: nat -> nat -> bool)
    requires DistinctKeys(kvs)
    ensures var written := ApplyPuts(store, kvs);
      var revoked := written - LeasedAfter({}, kvs);
      && (forall i :: 0 <= i < |kvs| ==> PutMatches(kvs[i], Answers(written, kvs, reach(0))(i)))
      && (forall i :: 0 <= i < |kvs| ==> LeasedKeyGone(kvs[i], Answers(revoked, kvs, reach(1))(i)))
      && (forall i :: 0 <= i < |kvs| ==> UnleasedKeyKept(kvs[i], Answers(revoked, kvs, reach(2))(i)))
  {
    AppliedPutsStay(store, kvs);
    var written := ApplyPuts(store, kvs);
    var leased := LeasedAfter({}, kvs);
    var revoked := written - leased;
    forall i | 0 <= i < |kvs|
      ensures PutMatches(kvs[i], Answers(written, kvs, reach(0))(i))
      ensures LeasedKeyGone(kvs[i], Answers(revoked, kvs, reach(1))(i))
      ensures UnleasedKeyKept(kvs[i], Answers(revoked, kvs, reach(2))(i))
    {
      var key := kvs[i].key;
      AnswersAt(written, kvs, reach(0), i);
      AnswersAt(revoked, kvs, reach(1), i);
      AnswersAt(revoked, kvs, reach(2), i);
      assert Lookup(written, key) == Some(kvs[i].value);
      if kvs[i].hasLease {
        assert key !in revoked;
      } else {
        assert key in revoked;
      }
    }
  }

  /** Revoking before validate_puts would fail it: a leased key that the
      store acknowledged reads back nothing once the lease is revoked. */
  lemma {:induction false} RevokingFirstBreaksValidatePuts(store: Store, kvs: seq<KvRecord>, k: nat)
    requires DistinctKeys(kvs)
    requires k < |kvs| && kvs[k].hasLease
    ensures var revoked := ApplyPuts(store, kvs) - LeasedAfter({}, kvs);
      !PutMatches(kvs[k], Answers(revoked, kvs, _ => true)(k))
  {
    AppliedPutsStay(store, kvs);
    var revoked := ApplyPuts(store, kvs) - LeasedAfter({}, kvs);
    assert kvs[k].key !in revoked;
    AnswersAt(revoked, kvs, _ => true, k);
  }
}
