/** The lease-test drivers' helpers: store calls turned into tuples that keep
    "the key is absent" (a success with no value) apart from "the store
    could not be asked" (a failure with a message), the request count and
    the random alphanumeric values. The store is a map from key to value;
    a call either returns or raises. */
module Helper {
  import opened Wrappers

  /** The key/value store as the drivers observe it. */
  type Store = map<string, string>

  /** What a get that reaches the store answers: the key's value, or None
      when the key is absent. */
  function Lookup(store: Store, key: string): (v: Option<string>)
    ensures v.Some? <==> key in store
    ensures v.Some? ==> v.value == store[key]
  {
    if key in store then Some(store[key]) else None
  }

  /** put_request: (True, None) when the put returns, (False, str(e)) when
      it raises. */
  function PutRequest<R>(outcome: CallResult<R>): (r: (bool, Option<string>))
    ensures r.0 <==> outcome.Returned?
    ensures r.0 <==> r.1.None?
    ensures outcome.Raised? ==> r.1 == Some(outcome.message)
  {
    match outcome
    case Returned(_) => (true, None)
    case Raised(e) => (false, Some(e))
  }

  /** get_request's (success, error, value). */
  datatype GetResult = GetResult(success: bool, error: Option<string>, value: Option<string>)

  /** get_request: a returned absent key gives (True, None, None), a
      returned present key (True, None, value), a raised call
      (False, str(e), None). */
  function GetRequest(outcome: CallResult<Option<string>>): (r: GetResult)
    ensures r.success <==> outcome.Returned?
    ensures r.success <==> r.error.None?
    ensures outcome.Returned? ==> r.value == outcome.value
    ensures outcome.Raised? ==> r.error == Some(outcome.message) && r.value.None?
  {
    match outcome
    case Returned(response) =>
      if response.None? then GetResult(true, None, None)
      else GetResult(true, None, Some(response.value))
    case Raised(e) => GetResult(false, Some(e), None)
  }

  /** A get that reaches the store succeeds whether or not the key is
      there, and the value is None exactly when the key is absent; a get
      that cannot reach it fails and carries no value. */
  lemma {:induction false} AbsentKeyIsSuccess(store: Store, key: string, e: string)
    ensures GetRequest(Returned(Lookup(store, key))).success
    ensures GetRequest(Returned(Lookup(store, key))).value.None? <==> key !in store
    ensures GetRequest(Returned(Lookup(store, key))) != GetRequest(Raised(e))
  {
  }

  /** The index of the first false entry, or |checks| when all hold: where
      a validator that stops at the first violation stops. */
  function FirstFalse(checks: seq<bool>): (k: nat)
    ensures k <= |checks|
    ensures forall i :: 0 <= i < k ==> checks[i]
    ensures k < |checks| ==> !checks[k]
  {
    if checks == [] || !checks[0] then 0 else 1 + FirstFalse(checks[1..])
  }

  /** generate_requests: get_random() % 100 + 1. */
  function GenerateRequests(random: nat): (n: nat)
    ensures 1 <= n <= 100
  {
    random % 100 + 1
  }

  /** Every count from 1 to 100 comes out of some draw. */
  lemma {:induction false} EveryCountReachable(n: nat)
    requires 1 <= n <= 100
    ensures GenerateRequests(n - 1) == n
  {
  }

  /** The `n` consecutive characters starting at `first`. */
  function CharRange(first: char, n: nat): (r: string)
    requires first as int + n <= 128
    ensures |r| == n
    ensures forall i :: 0 <= i < n ==> r[i] as int == first as int + i
  {
    seq(n, i requires 0 <= i < n => (first as int + i) as char)
  }

  /** string.ascii_letters + string.digits: a-z, A-Z, 0-9. */
  const Alphanumeric: string := CharRange('a', 26) + CharRange('A', 26) + CharRange('0', 10)

  predicate IsAlphanumeric(c: char)
  {
    'a' <= c <= 'z' || 'A' <= c <= 'Z' || '0' <= c <= '9'
  }

  /** The alphabet holds exactly the ASCII letters and digits. */
  lemma {:induction false} AlphanumericAlphabet()
    ensures |Alphanumeric| == 62
    ensures forall i :: 0 <= i < |Alphanumeric| ==> IsAlphanumeric(Alphanumeric[i])
    ensures forall c :: IsAlphanumeric(c) ==> c in Alphanumeric
  {
    forall i | 0 <= i < |Alphanumeric| ensures IsAlphanumeric(Alphanumeric[i]) {
      if i < 26 {
        assert Alphanumeric[i] == CharRange('a', 26)[i];
      } else if i < 52 {
        assert Alphanumeric[i] == CharRange('A', 26)[i - 26];
      } else {
        assert Alphanumeric[i] == CharRange('0', 10)[i - 52];
      }
    }
    forall c | IsAlphanumeric(c) ensures c in Alphanumeric {
      if 'a' <= c <= 'z' {
        assert Alphanumeric[c as int - 'a' as int] == CharRange('a', 26)[c as int - 'a' as int];
      } else if 'A' <= c <= 'Z' {
        assert Alphanumeric[26 + c as int - 'A' as int] == CharRange('A', 26)[c as int - 'A' as int];
      } else {
        assert Alphanumeric[52 + c as int - '0' as int] == CharRange('0', 10)[c as int - '0' as int];
      }
    }
  }

  /** The eight characters random_choice picks from the alphabet with the
      draws draw(0), ..., draw(7). */
  function RandomValue(draw: nat -> nat): (s: string)
    ensures |s| == 8
    ensures forall i :: 0 <= i < |s| ==> IsAlphanumeric(s[i])
  {
    AlphanumericAlphabet();
    seq(8, i requires 0 <= i < 8 => Alphanumeric[draw(i) % |Alphanumeric|])
  }

  /** generate_random_string (and the traffic driver's
      generate_random_value): eight characters, the i-th being the
      alphabet's entry that random_choice picks with draw(i). */
  method GenerateRandomString(draw: nat -> nat) returns (s: string)
    ensures s == RandomValue(draw)
    ensures |s| == 8 && forall i :: 0 <= i < |s| ==> IsAlphanumeric(s[i])
  {
    var chars: seq<char> := [];
    for i := 0 to 8
      invariant |chars| == i
      invariant forall j :: 0 <= j < i ==> chars[j] == Alphanumeric[draw(j) % |Alphanumeric|]
    {
      chars := chars + [Alphanumeric[draw(i) % |Alphanumeric|]];
    }
    s := chars;
  }
}
