/** The request helpers of the workload's traffic driver: a store call
    wrapped with clock readings into a success/failure tuple, and the
    choice of how many requests to make and of which types. The store call
    itself is given as its outcome; the clock is a function from reading
    number to nanoseconds; the random draws are inputs. */
module Request {
  import opened Wrappers

  /** What put_request and get_request return:
      (success, start, end, response, error). */
  datatype Timed<R> = Timed(success: bool, start: int, end: int, response: Option<R>, error: Option<string>)

  /** A clock that never runs backwards, as time.monotonic_ns promises. */
  ghost predicate Monotone(clock: nat -> int)
  {
    forall i, j :: i <= j ==> clock(i) <= clock(j)
  }

  /** put_request / get_request: the clock is read (reading `tick`) before
      the call and (reading `tick + 1`) after it on both paths; a call that
      returns gives (True, start, end, response, None), one that raises gives
      (False, start, end, None, error). */
  function TimedRequest<R>(clock: nat -> int, tick: nat, outcome: CallResult<R>): (r: Timed<R>)
    ensures r.start == clock(tick) && r.end == clock(tick + 1)
    ensures r.success <==> outcome.Returned?
    ensures r.success ==> r.response == Some(outcome.value) && r.error.None?
    ensures !r.success ==> r.response.None? && r.error == Some(outcome.message)
  {
    var start := clock(tick);
    match outcome
    case Returned(response) =>
      var end := clock(tick + 1);
      Timed(true, start, end, Some(response), None)
    case Raised(e) =>
      var end := clock(tick + 1);
      Timed(false, start, end, None, Some(e))
  }

  /** Under a monotone clock a request never ends before it starts, whether
      it succeeded or not. */
  lemma {:induction false} RequestEndsAfterStart<R>(clock: nat -> int, tick: nat, outcome: CallResult<R>)
    requires Monotone(clock)
    ensures TimedRequest(clock, tick, outcome).start <= TimedRequest(clock, tick, outcome).end
  {
    assert clock(tick) <= clock(tick + 1);
  }

  /** Python's int() on a float: truncation toward zero. */
  function Truncate(x: real): (n: int)
    ensures x >= 0.0 ==> 0 <= n && n as real <= x < n as real + 1.0
    ensures x < 0.0 ==> n <= 0 && n as real - 1.0 < x <= n as real
  {
    if x >= 0.0 then x.Floor else -((-x).Floor)
  }

  /** The number of requests for a normal sample: truncated, at least one. */
  function RequestCount(sample: real): (n: int)
    ensures n >= 1
    ensures sample >= 1.0 ==> n as real <= sample < n as real + 1.0
    ensures sample < 1.0 ==> n == 1
  {
    var count := Truncate(sample);
    if count > 1 then count else 1
  }

  /** generate_requests: `sample` is the normal draw, `types` the keys of
      the probability table and `draw(i)` picks the type of the i-th
      request. choices() raises IndexError on an empty table. Every request
      type returned is a key of the table. */
  function GenerateRequests(sample: real, types: seq<string>, draw: nat -> nat): (r: CallResult<seq<string>>)
    ensures r.Returned? <==> |types| > 0
    ensures r.Returned? ==> |r.value| == RequestCount(sample) >= 1
    ensures r.Returned? ==> forall i :: 0 <= i < |r.value| ==> r.value[i] in types
  {
    if |types| == 0 then Raised("IndexError")
    else
      var n := RequestCount(sample);
      Returned(seq(n, i requires 0 <= i => types[draw(i) % |types|]))
  }
}
