/** The plain put driver: random puts, then a read-back of every put that
    returned. Each get of the read-back either reaches the store or
    raises. */
module PlainTraffic {
  import opened Wrappers
  import opened Helper

  /** What the random source and the store give the i-th put. */
  datatype PutAttempt = PutAttempt(keyDraw: nat -> nat, valueDraw: nat -> nat, put: CallResult<()>)

  /** kvs after the first n attempts: the (key, value) pairs of the puts
      that returned, in order. */
  function SuccessfulPairs(n: nat, attempt: nat -> PutAttempt): seq<(string, string)>
  {
    if n == 0 then []
    else
      var a := attempt(n - 1);
      SuccessfulPairs(n - 1, attempt) + if a.put.Returned? then [(RandomValue(a.keyDraw), RandomValue(a.valueDraw))] else []
  }

  /** Exactly the returned puts are kept: as many pairs as returned
      attempts. */
  function ReturnedCount(n: nat, attempt: nat -> PutAttempt): nat
  {
    if n == 0 then 0 else ReturnedCount(n - 1, attempt) + if attempt(n - 1).put.Returned? then 1 else 0
  }

  lemma {:induction false} SuccessfulPairsCount(n: nat, attempt: nat -> PutAttempt)
    ensures |SuccessfulPairs(n, attempt)| == ReturnedCount(n, attempt) <= n
  {
    if n > 0 {
      SuccessfulPairsCount(n - 1, attempt);
    }
  }

  /** simulate_traffic: generate_requests() put attempts, each with a fresh
      random key and value; the pairs of those that returned, in order. */
  method SimulateTraffic(countDraw: nat, attempt: nat -> PutAttempt) returns (kvs: seq<(string, string)>)
    ensures kvs == SuccessfulPairs(GenerateRequests(countDraw), attempt)
  {
    var n := GenerateRequests(countDraw);
    kvs := [];
    for i := 0 to n
      invariant kvs == SuccessfulPairs(i, attempt)
    {
      var a := attempt(i);
      var key := GenerateRandomString(a.keyDraw);
      var value := GenerateRandomString(a.valueDraw);
      var (success, _) := PutRequest(a.put);
      if success {
        kvs := kvs + [(key, value)];
      }
    }
  }

  /** validate_puts' check on one pair: a failed get is skipped, a
      successful one must read the recorded value. */
  predicate PairMatches(kv: (string, string), answer: CallResult<Option<string>>)
  {
    var r := GetRequest(answer);
    !r.success || r.value == Some(kv.1)
  }

  function PairChecks(kvs: seq<(string, string)>, answer: nat -> CallResult<Option<string>>): seq<bool>
  {
    seq(|kvs|, i requires 0 <= i < |kvs| => PairMatches(kvs[i], answer(i)))
  }

  /** validate_puts: `answer(i)` is how the get for kvs[i] comes out. True
      (with no evidence) when no successful get reads a different value,
      the empty kvs included; otherwise false with (value, database value)
      of the first mismatch. */
  method ValidatePuts(kvs: seq<(string, string)>, answer: nat -> CallResult<Option<string>>)
    returns (ok: bool, mismatch: Option<(string, Option<string>)>)
    ensures ok <==> forall i :: 0 <= i < |kvs| ==> PairMatches(kvs[i], answer(i))
    ensures ok ==> mismatch.None?
    ensures !ok ==> var k := FirstFalse(PairChecks(kvs, answer));
      k < |kvs| && mismatch == Some((kvs[k].1, GetRequest(answer(k)).value))
  {
    for i := 0 to |kvs|
      invariant forall j :: 0 <= j < i ==> PairMatches(kvs[j], answer(j))
    {
      var (key, value) := kvs[i];
      var r := GetRequest(answer(i));
      if r.success && Some(value) != r.value {
        assert !PairChecks(kvs, answer)[i];
        assert forall j :: 0 <= j < i ==> PairChecks(kvs, answer)[j];
        return false, Some((value, r.value));
      }
    }
    return true, None;
  }

  /** A store that holds every acknowledged value passes validate_puts
      whichever gets fail; one that lost or changed an acknowledged value
      fails it as soon as that get reaches the store. */
  lemma {:induction false} ReadBackDecides(store: Store, kvs: seq<(string, string)>, k: nat)
    requires k < |kvs|
    ensures PairMatches(kvs[k], Returned(Lookup(store, kvs[k].0))) <==>
      kvs[k].0 in store && store[kvs[k].0] == kvs[k].1
    ensures forall e :: PairMatches(kvs[k], Raised(e))
  {
  }

  /** A store that holds every acknowledged pair passes validate_puts, for
      any pattern of gets that reach it or raise. */
  lemma {:induction false} FaithfulStorePasses(store: Store, kvs: seq<(string, string)>, answer: nat -> CallResult<Option<string>>)
    requires forall i :: 0 <= i < |kvs| ==> kvs[i].0 in store && store[kvs[i].0] == kvs[i].1
    requires forall i :: 0 <= i < |kvs| ==> answer(i).Raised? || answer(i) == Returned(Lookup(store, kvs[i].0))
    ensures forall i :: 0 <= i < |kvs| ==> PairMatches(kvs[i], answer(i))
  {
    forall i | 0 <= i < |kvs| ensures PairMatches(kvs[i], answer(i)) {
      ReadBackDecides(store, kvs, i);
    }
  }
}
