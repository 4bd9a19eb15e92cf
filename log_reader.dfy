/** The Go side of the operation log: reading the log written by the
    traffic drivers, splitting it into successful and failed operations,
    and the linearizability search that also tries subsets of the failed
    operations. The checker itself (porcupine.CheckOperations over kvModel)
    is a foreign library and is a parameter `check` here. */
module LogReader {
  import opened Wrappers
  import opened Text
  import opened KvModel

  /** One parsed log line and whether it goes to the failed list. */
  datatype LogEntry = LogEntry(op: Operation, failed: bool)

  /** The placeholder Python writes for a missing value reads as "". */
  function NoneToEmpty(field: string): string
  {
    if field == "None" then "" else field
  }

  /** Parsing one line `id,type,start,end,key,value,response,success,revision`
      (0-based field numbers). A line with fewer than eight fields makes the
      Go program index out of range and panic (None). */
  function ParseLine(line: string): (r: Option<LogEntry>)
    ensures r.None? <==> |Split(line, ',')| < 8
    ensures r.Some? ==> var vals := Split(line, ',');
      && (r.value.failed <==> vals[7] == "False")
      && r.value.op.input.key == vals[4]
      && (vals[1] == "put" ==> r.value.op.input == KvInput(PutOp, vals[4], NoneToEmpty(vals[5])))
      && (vals[1] != "put" ==> r.value.op.input == KvInput(GetOp, vals[4], ""))
      && r.value.op.output == KvOutput(NoneToEmpty(vals[6]))
      && r.value.op.call == ParseInt64(vals[2]) && r.value.op.ret == ParseInt64(vals[3])
      && (Atoi(vals[0]).None? ==> r.value.op.clientId == 0)
      && (Atoi(vals[0]).Some? ==> r.value.op.clientId == Atoi(vals[0]).value)
  {
    var vals := Split(line, ',');
    if |vals| < 8 then None
    else
      var clientId := match Atoi(vals[0]) case Some(n) => n case None => 0;
      var value := NoneToEmpty(vals[5]);
      var response := NoneToEmpty(vals[6]);
      var input := if vals[1] == "put" then KvInput(PutOp, vals[4], value) else KvInput(GetOp, vals[4], "");
      var op := Operation(clientId, input, ParseInt64(vals[2]), KvOutput(response), ParseInt64(vals[3]));
      Some(LogEntry(op, vals[7] == "False"))
  }

  /** Every line parsed, or None when some line makes the reader panic. */
  function ParseAll(lines: seq<string>): Option<seq<LogEntry>>
    decreases |lines|
  {
    if lines == [] then Some([])
    else
      match (ParseAll(lines[..|lines| - 1]), ParseLine(lines[|lines| - 1]))
      case (Some(entries), Some(e)) => Some(entries + [e])
      case _ => None
  }

  /** The operations of the entries that did not fail, in log order. */
  function Successful(entries: seq<LogEntry>): seq<Operation>
    decreases |entries|
  {
    if entries == [] then []
    else
      var last := entries[|entries| - 1];
      Successful(entries[..|entries| - 1]) + (if last.failed then [] else [last.op])
  }

  /** The operations of the entries that failed, in log order. */
  function Failed(entries: seq<LogEntry>): seq<Operation>
    decreases |entries|
  {
    if entries == [] then []
    else
      var last := entries[|entries| - 1];
      Failed(entries[..|entries| - 1]) + (if last.failed then [last.op] else [])
  }

  /** What OrganizeOperations returns: nil (no log, or no successful
      operation), a panic, or exactly [successful, failed]. */
  datatype Organized = Nil | Panicked | Organized(successful: seq<Operation>, failed: seq<Operation>)

  lemma {:induction false} ParseAllSnoc(lines: seq<string>, line: string)
    ensures ParseAll(lines + [line]) ==
      match (ParseAll(lines), ParseLine(line))
      case (Some(entries), Some(e)) => Some(entries + [e])
      case _ => None
  {
    var l := lines + [line];
    assert l[..|l| - 1] == lines;
  }

  lemma {:induction false} SplitSnoc(entries: seq<LogEntry>, e: LogEntry)
    ensures Successful(entries + [e]) == Successful(entries) + (if e.failed then [] else [e.op])
    ensures Failed(entries + [e]) == Failed(entries) + (if e.failed then [e.op] else [])
  {
    var l := entries + [e];
    assert l[..|l| - 1] == entries;
  }

  /** The scanner loop both validators run: parse each line in turn and
      append its operation to the successful or the failed list; None when
      a line makes the reader panic. */
  method ScanLog(lines: seq<string>) returns (r: Option<(seq<Operation>, seq<Operation>)>)
    ensures ParseAll(lines).None? <==> r.None?
    ensures r.Some? ==> r.value == (Successful(ParseAll(lines).value), Failed(ParseAll(lines).value))
  {
    var operations: seq<Operation> := [];
    var failedOperations: seq<Operation> := [];
    ghost var entries: seq<LogEntry> := [];
    for n := 0 to |lines|
      invariant ParseAll(lines[..n]) == Some(entries)
      invariant operations == Successful(entries) && failedOperations == Failed(entries)
    {
      assert lines[..n + 1] == lines[..n] + [lines[n]];
      ParseAllSnoc(lines[..n], lines[n]);
      var parsed := ParseLine(lines[n]);
      if parsed.None? {
        NoParseAfterPanic(lines, n + 1);
        return None;
      }
      var e := parsed.value;
      SplitSnoc(entries, e);
      if e.failed {
        failedOperations := failedOperations + [e.op];
      } else {
        operations := operations + [e.op];
      }
      entries := entries + [e];
    }
    assert lines[..|lines|] == lines;
    return Some((operations, failedOperations));
  }

  /** OrganizeOperations: scans the log (None: it cannot be opened), puts an
      operation whose success field is "False" in the failed list and every
      other in the successful list, in log order, and returns nil when no
      operation succeeded. */
  method OrganizeOperations(file: Option<string>) returns (r: Organized)
    ensures file.None? ==> r == Nil
    ensures file.Some? && ParseAll(Lines(file.value)).None? ==> r == Panicked
    ensures file.Some? && ParseAll(Lines(file.value)).Some? ==>
      var entries := ParseAll(Lines(file.value)).value;
      && (r == Nil <==> Successful(entries) == [])
      && (r != Nil ==> r == Organized(Successful(entries), Failed(entries)))
  {
    if file.None? {
      return Nil;
    }
    var scanned := ScanLog(Lines(file.value));
    if scanned.None? {
      return Panicked;
    }
    var (operations, failedOperations) := scanned.value;
    if |operations| == 0 {
      return Nil;
    }
    return Organized(operations, failedOperations);
  }

  /** Once a prefix of the log makes the reader panic, the whole log does. */
  lemma {:induction false} NoParseAfterPanic(lines: seq<string>, n: nat)
    requires n <= |lines| && ParseAll(lines[..n]).None?
    ensures ParseAll(lines).None?
    decreases |lines| - n
  {
    if n < |lines| {
      assert lines[..n + 1] == lines[..n] + [lines[n]];
      ParseAllSnoc(lines[..n], lines[n]);
      NoParseAfterPanic(lines, n + 1);
    } else {
      assert lines[..n] == lines;
    }
  }

  // ---------------------------------------------------------------------
  // Subsets of the failed operations (combinations.All)

  function Pow2(n: nat): (r: nat)
    ensures r >= 1
  {
    if n == 0 then 1 else 2 * Pow2(n - 1)
  }

  /** The elements of `ops` whose bit is set in `mask` (bit i for ops[i]),
      in their order in `ops`. */
  function Subset<T>(ops: seq<T>, mask: nat): seq<T>
    decreases |ops|
  {
    if ops == [] then []
    else (if mask % 2 == 1 then [ops[0]] else []) + Subset(ops[1..], mask / 2)
  }

  /** combinations.All(ops): every non-empty subset, one per mask from 1 to
      2^|ops| - 1. */
  function AllSubsets<T>(ops: seq<T>): (r: seq<seq<T>>)
    ensures |r| == Pow2(|ops|) - 1
  {
    seq(Pow2(|ops|) - 1, i requires 0 <= i => Subset(ops, i + 1))
  }

  /** The last mask selects every failed operation, so the search always
      includes the case of all failed operations having taken effect. */
  lemma {:induction false} SubsetOfAllBits<T>(ops: seq<T>)
    ensures Subset(ops, Pow2(|ops|) - 1) == ops
    decreases |ops|
  {
    if ops != [] {
      var n := |ops|;
      assert (Pow2(n) - 1) % 2 == 1 && (Pow2(n) - 1) / 2 == Pow2(n - 1) - 1;
      SubsetOfAllBits(ops[1..]);
      assert [ops[0]] + ops[1..] == ops;
    }
  }

  /** Every mask in range selects at least one operation. */
  lemma {:induction false} SubsetNonEmpty<T>(ops: seq<T>, mask: nat)
    requires 1 <= mask < Pow2(|ops|)
    ensures Subset(ops, mask) != []
    decreases |ops|
  {
    if mask % 2 == 0 {
      assert |ops| > 0;
      SubsetNonEmpty(ops[1..], mask / 2);
    }
  }

  /** Some non-empty subset of the failed operations, added after the
      successful ones, passes the check. */
  ghost predicate SomeSubsetPasses(successful: seq<Operation>, failed: seq<Operation>, check: seq<Operation> -> bool)
  {
    exists mask: nat :: 1 <= mask < Pow2(|failed|) && check(successful + Subset(failed, mask))
  }

  const MaxFailedOperations: nat := 19

  /** Validate (test template): true at once when the successful operations
      pass the check; an error when more than 19 operations failed;
      otherwise true exactly when some non-empty subset of the failed
      operations, appended to the successful ones, passes. */
  method Validate(successful: seq<Operation>, failed: seq<Operation>, check: seq<Operation> -> bool)
    returns (ok: bool, err: Option<string>)
    ensures check(successful) ==> ok && err.None?
    ensures !check(successful) && |failed| > MaxFailedOperations ==> !ok && err.Some?
    ensures !check(successful) && |failed| <= MaxFailedOperations ==>
      err.None? && (ok <==> SomeSubsetPasses(successful, failed, check))
  {
    if check(successful) {
      return true, None;
    }
    if |failed| > MaxFailedOperations {
      return false, Some("Memory limit could be hit");
    }
    var combos := AllSubsets(failed);
    for i := 0 to |combos|
      invariant forall j :: 1 <= j <= i ==> !check(successful + Subset(failed, j))
    {
      if check(successful + combos[i]) {
        return true, None;
      }
    }
    return false, None;
  }

  /** If all the failed operations together make the history pass, the
      search finds a passing subset. */
  lemma {:induction false} AllFailedPassingSuffices(successful: seq<Operation>, failed: seq<Operation>, check: seq<Operation> -> bool)
    requires failed != [] && check(successful + failed)
    ensures SomeSubsetPasses(successful, failed, check)
  {
    SubsetOfAllBits(failed);
    assert Pow2(|failed|) >= 2 by { assert Pow2(|failed|) == 2 * Pow2(|failed| - 1); }
    var mask: nat := Pow2(|failed|) - 1;
    assert check(successful + Subset(failed, mask));
  }

  /** StartValidate: organizes the log, validates, and raises the "always
      linearizable" assertion with Validate's result unless OrganizeOperations
      returned nil or Validate returned an error. The result is the asserted
      condition, None when no assertion is raised (a panic raises none). */
  method StartValidate(file: Option<string>, check: seq<Operation> -> bool) returns (asserted: Option<bool>)
    ensures file.None? ==> asserted.None?
    ensures file.Some? && ParseAll(Lines(file.value)).None? ==> asserted.None?
    ensures file.Some? && ParseAll(Lines(file.value)).Some? ==>
      var entries := ParseAll(Lines(file.value)).value;
      var s, f := Successful(entries), Failed(entries);
      && (asserted.Some? <==> s != [] && (check(s) || |f| <= MaxFailedOperations))
      && (asserted.Some? ==> (asserted.value <==> check(s) || SomeSubsetPasses(s, f, check)))
  {
    var organized := OrganizeOperations(file);
    if !organized.Organized? {
      return None;
    }
    var result, err := Validate(organized.successful, organized.failed, check);
    if err.Some? {
      return None;
    }
    return Some(result);
  }

  // ---------------------------------------------------------------------
  // The workload's Validate: the same scan and search in one function,
  // without the cap on failed operations.

  datatype WorkloadVerdict =
    | NoLog
    | Crashed
    | NoSuccessful
    | Linearizable
    | LinearizableWith(added: seq<Operation>)
    | NotLinearizable

  /** `mask` is the first mask whose subset of failed operations, appended
      to the successful ones, passes the check. */
  ghost predicate FirstPassingMask(successful: seq<Operation>, failed: seq<Operation>, check: seq<Operation> -> bool, mask: nat)
  {
    && 1 <= mask < Pow2(|failed|)
    && check(successful + Subset(failed, mask))
    && forall m: nat :: 1 <= m < mask ==> !check(successful + Subset(failed, m))
  }

  /** The workload's subset loop: the first subset of failed operations (in
      mask order) that makes the successful ones pass, if any. */
  method SearchFailed(successful: seq<Operation>, failed: seq<Operation>, check: seq<Operation> -> bool)
    returns (v: WorkloadVerdict)
    ensures v == NotLinearizable || v.LinearizableWith?
    ensures v == NotLinearizable <==> !SomeSubsetPasses(successful, failed, check)
    ensures v.LinearizableWith? ==>
      exists mask: nat :: FirstPassingMask(successful, failed, check, mask) && v.added == Subset(failed, mask)
  {
    var combos := AllSubsets(failed);
    for i := 0 to |combos|
      invariant forall j: nat :: 1 <= j <= i ==> !check(successful + Subset(failed, j))
    {
      if check(successful + combos[i]) {
        assert FirstPassingMask(successful, failed, check, i + 1);
        return LinearizableWith(combos[i]);
      }
    }
    return NotLinearizable;
  }

  /** Validate (workload, without the visualisation branch): reads the log,
      stops when no operation succeeded, reports the successful operations
      linearizable when they pass the check, and otherwise the first subset
      of failed operations (in mask order) that makes them pass, if any. */
  method WorkloadValidate(file: Option<string>, check: seq<Operation> -> bool) returns (v: WorkloadVerdict)
    ensures file.None? <==> v == NoLog
    ensures file.Some? ==> (ParseAll(Lines(file.value)).None? <==> v == Crashed)
    ensures file.Some? && ParseAll(Lines(file.value)).Some? ==>
      var entries := ParseAll(Lines(file.value)).value;
      var s, f := Successful(entries), Failed(entries);
      && (v == NoSuccessful <==> s == [])
      && (s != [] ==> (v == Linearizable <==> check(s)))
      && (s != [] && !check(s) ==> (v == NotLinearizable <==> !SomeSubsetPasses(s, f, check)))
      && (v.LinearizableWith? ==> exists mask: nat :: FirstPassingMask(s, f, check, mask) && v.added == Subset(f, mask))
  {
    if file.None? {
      return NoLog;
    }
    var scanned := ScanLog(Lines(file.value));
    if scanned.None? {
      return Crashed;
    }
    var (operations, failedOps) := scanned.value;
    if |operations| == 0 {
      return NoSuccessful;
    }
    if check(operations) {
      return Linearizable;
    }
    v := SearchFailed(operations, failedOps, check);
  }
}
