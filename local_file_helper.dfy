/** The traffic recorder of the workload: the traffic-id counter file and
    the append-only operations log. Each method is one critical section
    under its file lock, so it runs as one atomic step on the two files'
    contents. */
module LocalFileHelper {
  import opened Wrappers
  import opened Text

  /** Every piece is an integer for Python's int(). */
  predicate AllInts(pieces: seq<string>)
  {
    forall i :: 0 <= i < |pieces| ==> PyInt(pieces[i]).Some?
  }

  /** `ids` holds int() of each piece, in order. */
  predicate IntsOf(pieces: seq<string>, ids: seq<int>)
    requires AllInts(pieces)
  {
    |ids| == |pieces| && forall i :: 0 <= i < |pieces| ==> ids[i] == PyInt(pieces[i]).value
  }

  /** Python's list(map(int, pieces)); None when some piece raises
      ValueError. */
  function ParseIds(pieces: seq<string>): (r: Option<seq<int>>)
    ensures r.Some? <==> AllInts(pieces)
    ensures r.Some? ==> |r.value| == |pieces| && IntsOf(pieces, r.value)
    decreases |pieces|
  {
    if pieces == [] then Some([])
    else
      var init := pieces[..|pieces| - 1];
      var last := pieces[|pieces| - 1];
      assert init + [last] == pieces;
      AllIntsSnoc(init, last);
      match ParseIds(init)
      case None => None
      case Some(ids) =>
        match PyInt(last)
        case None => None
        case Some(n) =>
          IntsOfSnoc(init, last, ids, n);
          Some(ids + [n])
  }

  lemma {:induction false} AllIntsSnoc(init: seq<string>, last: string)
    ensures AllInts(init + [last]) <==> AllInts(init) && PyInt(last).Some?
  {
    if AllInts(init + [last]) {
      assert PyInt((init + [last])[|init|]).Some?;
      forall i | 0 <= i < |init| ensures PyInt(init[i]).Some? {
        assert (init + [last])[i] == init[i];
      }
    }
  }

  lemma {:induction false} IntsOfSnoc(init: seq<string>, last: string, ids: seq<int>, n: int)
    requires AllInts(init) && PyInt(last) == Some(n) && IntsOf(init, ids)
    ensures AllInts(init + [last]) && IntsOf(init + [last], ids + [n])
  {
    AllIntsSnoc(init, last);
    var pieces := init + [last];
    forall i | 0 <= i < |pieces| ensures (ids + [n])[i] == PyInt(pieces[i]).value {
      if i < |init| {
        assert pieces[i] == init[i];
      }
    }
  }

  /** Python's list(map(str, ids)). */
  function ShowIds(ids: seq<int>): (r: seq<string>)
    ensures |r| == |ids|
    decreases |ids|
  {
    if ids == [] then [] else ShowIds(ids[..|ids| - 1]) + [IntToString(ids[|ids| - 1])]
  }

  /** Each shown id is str of that id. */
  lemma {:induction false} ShowIdsAt(ids: seq<int>, i: nat)
    requires i < |ids|
    ensures ShowIds(ids)[i] == IntToString(ids[i])
    decreases |ids|
  {
    if i < |ids| - 1 {
      ShowIdsAt(ids[..|ids| - 1], i);
    }
  }

  /** The counter file's content for a list of ids: ','.join(map(str, ids)). */
  function IdsText(ids: seq<int>): string
  {
    Join(ShowIds(ids), ',')
  }

  /** The ids the counter file lists: its first line, stripped, split on
      commas and converted with int(); the empty list for an empty line,
      None when a piece is not an integer. */
  function ListedIds(text: string): (ids: Option<seq<int>>)
    ensures Strip(ReadLine(text)) == "" ==> ids == Some([])
    ensures Strip(ReadLine(text)) != "" ==>
      var pieces := Split(Strip(ReadLine(text)), ',');
      && (ids.Some? <==> AllInts(pieces))
      && (ids.Some? ==> IntsOf(pieces, ids.value))
  {
    var line := Strip(ReadLine(text));
    if line == "" then Some([]) else ParseIds(Split(line, ','))
  }

  /** int(str(n)) == n. */
  lemma {:induction false} PyIntShown(n: int)
    ensures PyInt(IntToString(n)) == Some(n)
  {
    var s := IntToString(n);
    assert forall i :: 0 <= i < |s| ==> !IsSpace(s[i]);
    StripKeeps(s);
  }

  /** Converting one more piece appends its id. */
  lemma {:induction false} ParseIdsSnoc(pieces: seq<string>, piece: string, ids: seq<int>, n: int)
    requires ParseIds(pieces) == Some(ids) && PyInt(piece) == Some(n)
    ensures ParseIds(pieces + [piece]) == Some(ids + [n])
  {
    var l := pieces + [piece];
    assert l[..|l| - 1] == pieces;
  }

  lemma {:induction false} ShowIdsSnoc(ids: seq<int>, id: int)
    ensures ShowIds(ids + [id]) == ShowIds(ids) + [IntToString(id)]
  {
    var l := ids + [id];
    assert l[..|l| - 1] == ids;
  }

  lemma {:induction false} ParseShownIds(ids: seq<int>)
    ensures ParseIds(ShowIds(ids)) == Some(ids)
    decreases |ids|
  {
    if ids != [] {
      var init := ids[..|ids| - 1];
      var last := ids[|ids| - 1];
      assert init + [last] == ids;
      ParseShownIds(init);
      PyIntShown(last);
      ShowIdsSnoc(init, last);
      ParseIdsSnoc(ShowIds(init), IntToString(last), init, last);
    }
  }

  /** A counter text that is one non-empty line without whitespace lists
      the ids its comma-separated pieces convert to. */
  lemma {:induction false} ListedIdsOfLine(text: string)
    requires text != [] && '\n' !in text
    requires forall i :: 0 <= i < |text| ==> !IsSpace(text[i])
    ensures ListedIds(text) == ParseIds(Split(text, ','))
  {
    CleanLineReadsWhole(text);
  }

  /** readline().strip() of a single line without whitespace is the line. */
  lemma {:induction false} CleanLineReadsWhole(text: string)
    requires '\n' !in text
    requires forall i :: 0 <= i < |text| ==> !IsSpace(text[i])
    ensures Strip(ReadLine(text)) == text
  {
    assert ReadLine(text) == text;
    StripKeeps(text);
  }

  /** The text written for a non-empty list of ids is one non-empty line
      without whitespace, and splits on commas into the shown ids. */
  lemma {:induction false} IdsTextShape(ids: seq<int>)
    requires ids != []
    ensures IdsText(ids) != [] && '\n' !in IdsText(ids)
    ensures forall i :: 0 <= i < |IdsText(ids)| ==> !IsSpace(IdsText(ids)[i])
    ensures Split(IdsText(ids), ',') == ShowIds(ids)
  {
    var shown := ShowIds(ids);
    var text := Join(shown, ',');
    forall i | 0 <= i < |shown|
      ensures forall j :: 0 <= j < |shown[i]| ==> IsDigit(shown[i][j]) || shown[i][j] == '-'
      ensures ',' !in shown[i]
    {
      ShowIdsAt(ids, i);
    }
    JoinChars(shown, ',');
    assert forall i :: 0 <= i < |text| ==> text[i] != '\n' && !IsSpace(text[i]);
    SplitJoin(shown, ',');
    ShowIdsAt(ids, 0);
    JoinStartsWithFirst(shown, ',');
  }

  /** Writing ids to the counter file and reading them back gives the same
      list: join with ',' and split-and-int are inverse. */
  lemma {:induction false} ListedIdsRoundTrip(ids: seq<int>)
    ensures ListedIds(IdsText(ids)) == Some(ids)
  {
    if ids == [] {
      assert IdsText(ids) == "";
    } else {
      IdsTextShape(ids);
      ListedIdsOfLine(IdsText(ids));
      ParseShownIds(ids);
    }
  }

  /** Every character of a join is a separator or a character of a part. */
  lemma {:induction false} JoinChars(parts: seq<string>, sep: char)
    requires forall i :: 0 <= i < |parts| ==> forall j :: 0 <= j < |parts[i]| ==> IsDigit(parts[i][j]) || parts[i][j] == '-'
    ensures forall k :: 0 <= k < |Join(parts, sep)| ==> (var c := Join(parts, sep)[k]; IsDigit(c) || c == '-' || c == sep)
    decreases |parts|
  {
    if |parts| > 1 {
      JoinChars(parts[1..], sep);
      var j := Join(parts, sep);
      assert j == parts[0] + [sep] + Join(parts[1..], sep);
      forall k | 0 <= k < |j| ensures IsDigit(j[k]) || j[k] == '-' || j[k] == sep {
        if k < |parts[0]| {
          assert j[k] == parts[0][k];
        } else if k > |parts[0]| {
          assert j[k] == Join(parts[1..], sep)[k - |parts[0]| - 1];
        }
      }
    }
  }

  lemma {:induction false} JoinStartsWithFirst(parts: seq<string>, sep: char)
    requires |parts| >= 1
    ensures |Join(parts, sep)| >= |parts[0]|
  {
  }

  /** The id after the listed ones: the last plus one, or 1 when none is
      listed. */
  function NextId(ids: seq<int>): (id: int)
    ensures ids != [] ==> id == ids[|ids| - 1] + 1 && id > ids[|ids| - 1]
    ensures ids == [] ==> id == 1
  {
    if ids == [] then 1 else ids[|ids| - 1] + 1
  }

  /** What one generate_traffic_id does to the counter file: None when it
      raises, exactly on a missing file or a piece that is not an integer;
      otherwise the new id, the last listed id plus one (1 when none is
      listed), and the file's new content (NextCounterLists: it lists the
      old ids followed by the new one). */
  function NextCounter(counter: Option<string>): (next: Option<(int, string)>)
    ensures next.None? <==> counter.None? || ListedIds(counter.value).None?
  {
    if counter.None? then None
    else
      match ListedIds(counter.value)
      case None => None
      case Some(ids) => Some((NextId(ids), IdsText(ids + [NextId(ids)])))
  }

  /** The new id is one more than the last listed id (1 for an empty
      file), and the rewritten counter file lists the old ids followed by
      the new one. */
  lemma {:induction false} NextCounterLists(counter: Option<string>)
    requires NextCounter(counter).Some?
    ensures NextCounter(counter).value.0 == NextId(ListedIds(counter.value).value)
    ensures ListedIds(NextCounter(counter).value.1) == Some(ListedIds(counter.value).value + [NextCounter(counter).value.0])
  {
    var ids := ListedIds(counter.value).value;
    ListedIdsRoundTrip(ids + [NextId(ids)]);
  }

  /** The two files the traffic drivers share: the counter file (None
      while it does not exist) and the operations log. */
  class TrafficFiles {
    var counter: Option<string>
    var log: string

    constructor (counter: Option<string>, log: string)
      ensures this.counter == counter && this.log == log
    {
      this.counter := counter;
      this.log := log;
    }

    /** generate_traffic_id: reads the listed ids, picks the last one plus
        one (1 for an empty line), and rewrites the file as the old ids
        followed by the new one. A missing file or a piece that is not an
        integer raises, and the file is left as it was. Only the counter
        file is written. */
    method GenerateTrafficId() returns (r: Option<int>)
      modifies this`counter
      ensures NextCounter(old(counter)).None? ==> r.None? && counter == old(counter)
      ensures NextCounter(old(counter)).Some? ==>
        r == Some(NextCounter(old(counter)).value.0) && counter == Some(NextCounter(old(counter)).value.1)
    {
      if counter.None? {
        return None;
      }
      var listed := ListedIds(counter.value);
      if listed.None? {
        return None;
      }
      var ids := listed.value;
      var newId := NextId(ids);
      counter := Some(IdsText(ids + [newId]));
      return Some(newId);
    }

    /** write_operations: appends each operation and a newline, in order;
        what the log held before is untouched. */
    method WriteOperations(operations: seq<string>)
      modifies this`log
      ensures counter == old(counter)
      ensures log == old(log) + Terminated(operations)
    {
      for i := 0 to |operations|
        invariant log == old(log) + Terminated(operations[..i])
      {
        TerminatedSnoc(operations[..i], operations[i]);
        assert operations[..i + 1] == operations[..i] + [operations[i]];
        log := log + operations[i] + "\n";
      }
      assert operations[..|operations|] == operations;
    }
  }

  /** One more generate_traffic_id on a counter file written for `ids`
      (1, 2, ..., |ids|): the next id is |ids| + 1 and the file is rewritten
      for `ids` followed by it. */
  lemma {:induction false} NextAfter(ids: seq<int>)
    requires forall i :: 0 <= i < |ids| ==> ids[i] == i + 1
    ensures NextCounter(Some(IdsText(ids))) == Some((|ids| + 1, IdsText(ids + [|ids| + 1])))
  {
    ListedIdsRoundTrip(ids);
    assert NextId(ids) == |ids| + 1;
  }

  /** `n` drivers run one after another (the lock serialises them) against
      an empty counter file: they receive the ids 1, 2, ..., n. */
  method IdsFromEmptyCounter(n: nat) returns (ids: seq<int>)
    ensures |ids| == n
    ensures forall i :: 0 <= i < n ==> ids[i] == i + 1
  {
    ids := [];
    assert IdsText(ids) == "";
    var files := new TrafficFiles(Some(IdsText(ids)), "");
    while |ids| < n
      invariant |ids| <= n
      invariant forall i :: 0 <= i < |ids| ==> ids[i] == i + 1
      invariant files.counter == Some(IdsText(ids))
    {
      NextAfter(ids);
      ghost var extended := ids + [|ids| + 1];
      var id := files.GenerateTrafficId();
      assert id == Some(|ids| + 1) && files.counter == Some(IdsText(extended));
      ids := ids + [id.value];
      assert ids == extended;
    }
  }
}
