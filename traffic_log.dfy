/** The parallel traffic driver: it draws a traffic id and a list of request
    types, runs each request against the store, formats one log line per
    recorded operation and appends them to the operations log in one write.
    The store's answers, the random draws and the clock are inputs. */
module TrafficLog {
  import opened Wrappers
  import opened Text
  import opened KvModel
  import opened LogReader
  import opened LocalFileHelper
  import Request
  import Helper

  /** KEYS. */
  const Keys: seq<string> := ["a", "b", "c", "d", "e", "f"]

  /** The keys of REQUEST_PROBABILITIES. */
  const RequestTypes: seq<string> := ["put", "get"]

  /** The metadata half of a get's answer. */
  datatype KeyMeta = KeyMeta(headerRevision: int, createRevision: int, modRevision: int, version: int)

  /** A get's answer: the value (None when the key is absent) and the
      metadata (None when the key is absent). */
  datatype GetResponse = GetResponse(value: Option<string>, meta: Option<KeyMeta>)

  /** What the random source and the store give the i-th request: the key
      draw, the value draws, and how a put (its header revision) or a get
      would come out. */
  datatype Attempt = Attempt(keyDraw: nat, valueDraw: nat -> nat, put: CallResult<int>, get: CallResult<GetResponse>)

  /** The arguments of one format_operation call. */
  datatype Record = Record(
    trafficId: int, requestType: string, start: int, end: int, key: string,
    value: Option<string>, response: Option<string>, success: bool, revision: Option<string>)

  /** How an f-string shows an optional string, a boolean and an optional
      integer. */
  function ShowOption(v: Option<string>): string
  {
    if v.None? then "None" else v.value
  }

  function ShowBool(b: bool): string
  {
    if b then "True" else "False"
  }

  function ShowIntOption(v: Option<int>): string
  {
    if v.None? then "None" else IntToString(v.value)
  }

  /** The nine fields id, type, start, end, key, value, response, success,
      revision, in that order, as the f-string shows them. */
  function Fields(r: Record): (fields: seq<string>)
    ensures |fields| == 9
  {
    [IntToString(r.trafficId), r.requestType, IntToString(r.start), IntToString(r.end), r.key,
     ShowOption(r.value), ShowOption(r.response), ShowBool(r.success), ShowOption(r.revision)]
  }

  /** format_operation: the nine fields with a comma between each two. A
      record with plain fields gives one line that splits on commas into
      exactly id, type, start, end, key, value, response, success,
      revision. */
  function FormatOperation(r: Record): (line: string)
    ensures PlainRecord(r) ==> Split(line, ',') == Fields(r)
    ensures PlainRecord(r) ==> '\n' !in line && !EndsWithCR(line)
  {
    JoinedFieldsSplitBack(r);
    Join(Fields(r), ',')
  }

  /** A field the log carries unchanged: no comma, newline or carriage
      return. */
  predicate PlainField(s: string)
  {
    forall i :: 0 <= i < |s| ==> s[i] != ',' && s[i] != '\n' && s[i] != '\r'
  }

  /** A record whose text fields are plain and whose value and response are
      not the text "None" (which the reader could not tell from a missing
      one). */
  predicate PlainRecord(r: Record)
  {
    && PlainField(r.requestType) && PlainField(r.key)
    && PlainField(ShowOption(r.value)) && PlainField(ShowOption(r.response)) && PlainField(ShowOption(r.revision))
    && r.value != Some("None") && r.response != Some("None")
  }

  lemma {:induction false} NumberIsPlain(n: int)
    ensures PlainField(IntToString(n))
  {
  }

  lemma {:induction false} FieldsArePlain(r: Record)
    requires PlainRecord(r)
    ensures forall i :: 0 <= i < 9 ==> PlainField(Fields(r)[i])
  {
    NumberIsPlain(r.trafficId);
    NumberIsPlain(r.start);
    NumberIsPlain(r.end);
  }

  /** Joining plain fields with commas adds no newline or carriage
      return. */
  lemma {:induction false} JoinKeepsLine(parts: seq<string>)
    requires forall i :: 0 <= i < |parts| ==> PlainField(parts[i])
    ensures forall k :: 0 <= k < |Join(parts, ',')| ==> Join(parts, ',')[k] != '\n' && Join(parts, ',')[k] != '\r'
    decreases |parts|
  {
    if |parts| > 1 {
      JoinKeepsLine(parts[1..]);
      var j := Join(parts, ',');
      var rest := Join(parts[1..], ',');
      assert j == parts[0] + [','] + rest;
      forall k | 0 <= k < |j| ensures j[k] != '\n' && j[k] != '\r' {
        if k < |parts[0]| {
          assert j[k] == parts[0][k];
        } else if k > |parts[0]| {
          assert j[k] == rest[k - |parts[0]| - 1];
        }
      }
    } else if |parts| == 1 {
      assert PlainField(parts[0]);
    }
  }

  /** Plain fields joined with commas split back into themselves and make
      one line a scanner reads back whole. */
  lemma {:induction false} JoinedFieldsSplitBack(r: Record)
    ensures PlainRecord(r) ==> Split(Join(Fields(r), ','), ',') == Fields(r)
    ensures PlainRecord(r) ==> '\n' !in Join(Fields(r), ',') && !EndsWithCR(Join(Fields(r), ','))
  {
    if !PlainRecord(r) {
      return;
    }
    var f := Fields(r);
    FieldsArePlain(r);
    forall i | 0 <= i < |f| ensures ',' !in f[i] {
      assert PlainField(f[i]);
    }
    SplitJoin(f, ',');
    JoinKeepsLine(f);
  }

  /** The value a Go reader stores for an optional field: "" for None. */
  function ValueOrEmpty(v: Option<string>): string
  {
    if v.None? then "" else v.value
  }

  /** The operation and failed flag the Go reader should get back from a
      record: a put carries its value, a get none, and the output is the
      response ("" for a get of an absent key, the register's initial
      state). */
  function ExpectedEntry(r: Record): LogEntry
  {
    var input := if r.requestType == "put" then KvInput(PutOp, r.key, ValueOrEmpty(r.value)) else KvInput(GetOp, r.key, "");
    LogEntry(Operation(r.trafficId, input, r.start, KvOutput(ValueOrEmpty(r.response)), r.end), !r.success)
  }

  /** Round trip across the two languages: parsing a formatted record gives
      back its id, kind, key, value, response, times and success flag. */
  lemma {:induction false} FormatParseRoundTrip(r: Record)
    requires PlainRecord(r)
    requires InInt64(r.trafficId) && InInt64(r.start) && InInt64(r.end)
    ensures ParseLine(FormatOperation(r)) == Some(ExpectedEntry(r))
  {
    var vals := Fields(r);
    assert NoneToEmpty(vals[5]) == ValueOrEmpty(r.value);
    assert NoneToEmpty(vals[6]) == ValueOrEmpty(r.response);
    assert vals[7] == "False" <==> !r.success;
  }

  /** The revision field of a put: {Put_Revision:r}. */
  function PutRevision(revision: int): (field: string)
    ensures |field| >= 15 && field[..14] == "{Put_Revision:" && field[|field| - 1] == '}'
    ensures ParseDecimal(field[14..|field| - 1]) == Some(revision)
  {
    var shown := IntToString(revision);
    var field := "{Put_Revision:" + shown + "}";
    assert field[14..|field| - 1] == shown;
    field
  }

  /** The revision field of a get: the four metadata numbers, None each
      when the key is absent. */
  function GetRevision(meta: Option<KeyMeta>): (field: string)
    ensures |field| > 0 && field[|field| - 1] == '}'
    ensures meta.None? ==> "{Get_Revision:None;" <= field
    ensures meta.Some? ==> "{Get_Revision:" + IntToString(meta.value.headerRevision) + ";" <= field
  {
    var header := if meta.Some? then Some(meta.value.headerRevision) else None;
    var created := if meta.Some? then Some(meta.value.createRevision) else None;
    var modified := if meta.Some? then Some(meta.value.modRevision) else None;
    var version := if meta.Some? then Some(meta.value.version) else None;
    var tail := ";Key_Created:" + ShowIntOption(created)
      + ";Key_Modified:" + ShowIntOption(modified) + ";Key_Version:" + ShowIntOption(version) + "}";
    var field := "{Get_Revision:" + ShowIntOption(header) + tail;
    assert field == ("{Get_Revision:" + ShowIntOption(header) + ";") + tail[1..];
    field
  }

  lemma {:induction false} PlainConcat(a: string, b: string)
    requires PlainField(a) && PlainField(b)
    ensures PlainField(a + b)
  {
    forall i | 0 <= i < |a + b| ensures (a + b)[i] != ',' && (a + b)[i] != '\n' && (a + b)[i] != '\r' {
      if i >= |a| {
        assert (a + b)[i] == b[i - |a|];
      }
    }
  }

  lemma {:induction false} ShownOptionIsPlain(v: Option<int>)
    ensures PlainField(ShowIntOption(v))
  {
    if v.Some? {
      NumberIsPlain(v.value);
    } else {
      assert ShowIntOption(v) == "None";
    }
  }

  lemma {:induction false} PutRevisionIsPlain(revision: int)
    ensures PlainField(PutRevision(revision))
  {
    NumberIsPlain(revision);
    PlainConcat("{Put_Revision:", IntToString(revision));
    PlainConcat("{Put_Revision:" + IntToString(revision), "}");
  }

  lemma {:induction false} GetRevisionIsPlain(meta: Option<KeyMeta>)
    ensures PlainField(GetRevision(meta))
  {
    var header := if meta.Some? then Some(meta.value.headerRevision) else None;
    var created := if meta.Some? then Some(meta.value.createRevision) else None;
    var modified := if meta.Some? then Some(meta.value.modRevision) else None;
    var version := if meta.Some? then Some(meta.value.version) else None;
    ShownOptionIsPlain(header);
    ShownOptionIsPlain(created);
    ShownOptionIsPlain(modified);
    ShownOptionIsPlain(version);
    var t := ";Key_Created:";
    PlainConcat(t, ShowIntOption(created));
    t := t + ShowIntOption(created);
    PlainConcat(t, ";Key_Modified:");
    t := t + ";Key_Modified:";
    PlainConcat(t, ShowIntOption(modified));
    t := t + ShowIntOption(modified);
    PlainConcat(t, ";Key_Version:");
    t := t + ";Key_Version:";
    PlainConcat(t, ShowIntOption(version));
    t := t + ShowIntOption(version);
    PlainConcat(t, "}");
    t := t + "}";
    var g := "{Get_Revision:";
    PlainConcat(g, ShowIntOption(header));
    g := g + ShowIntOption(header);
    PlainConcat(g, t);
    g := g + t;
    assert g == GetRevision(meta);
  }

  /** How the get revision field shows one optional number: "None", or
      decimal text that parses back to the number. */
  predicate ShowsNumber(s: string, v: Option<int>)
  {
    if v.None? then s == "None" else ParseDecimal(s) == Some(v.value)
  }

  /** One labelled entry "<label><number>" of the get revision field. */
  predicate LabelledNumber(s: string, tag: string, v: Option<int>)
  {
    |s| >= |tag| && s[..|tag|] == tag && ShowsNumber(s[|tag|..], v)
  }

  /** The four entries between the braces of a get revision field: the
      header revision, then the labelled created revision, mod revision and
      version, each "None" when the key is absent. */
  predicate RevisionEntries(pieces: seq<string>, meta: Option<KeyMeta>)
  {
    |pieces| == 4
    && ShowsNumber(pieces[0], if meta.Some? then Some(meta.value.headerRevision) else None)
    && LabelledNumber(pieces[1], "Key_Created:", if meta.Some? then Some(meta.value.createRevision) else None)
    && LabelledNumber(pieces[2], "Key_Modified:", if meta.Some? then Some(meta.value.modRevision) else None)
    && LabelledNumber(pieces[3], "Key_Version:", if meta.Some? then Some(meta.value.version) else None)
  }

  /** The get revision field reads back: between "{Get_Revision:" and the
      closing brace, splitting on ';' gives exactly the four entries. */
  lemma {:induction false} GetRevisionReadsBack(meta: Option<KeyMeta>)
    ensures var field := GetRevision(meta);
      |field| >= 15 && field[..14] == "{Get_Revision:" && field[|field| - 1] == '}'
      && RevisionEntries(Split(field[14..|field| - 1], ';'), meta)
  {
    var header := if meta.Some? then Some(meta.value.headerRevision) else None;
    var created := if meta.Some? then Some(meta.value.createRevision) else None;
    var modified := if meta.Some? then Some(meta.value.modRevision) else None;
    var version := if meta.Some? then Some(meta.value.version) else None;
    var h, c, m, v := ShowIntOption(header), ShowIntOption(created), ShowIntOption(modified), ShowIntOption(version);
    var pieces := [h, "Key_Created:" + c, "Key_Modified:" + m, "Key_Version:" + v];
    EntriesOfShownMeta(meta, h, c, m, v);
    JoinFour(pieces);
    GetRevisionLayout(meta, h, c, m, v);
    var field := GetRevision(meta);
    assert field[14..|field| - 1] == Join(pieces, ';');
    SplitJoin(pieces, ';');
  }

  lemma {:induction false} EntriesOfShownMeta(meta: Option<KeyMeta>, h: string, c: string, m: string, v: string)
    requires h == ShowIntOption(if meta.Some? then Some(meta.value.headerRevision) else None)
    requires c == ShowIntOption(if meta.Some? then Some(meta.value.createRevision) else None)
    requires m == ShowIntOption(if meta.Some? then Some(meta.value.modRevision) else None)
    requires v == ShowIntOption(if meta.Some? then Some(meta.value.version) else None)
    ensures var pieces := [h, "Key_Created:" + c, "Key_Modified:" + m, "Key_Version:" + v];
      RevisionEntries(pieces, meta) && forall i :: 0 <= i < 4 ==> ';' !in pieces[i]
  {
    ShownOptionHasNoSemicolon(if meta.Some? then Some(meta.value.headerRevision) else None);
    ShownOptionHasNoSemicolon(if meta.Some? then Some(meta.value.createRevision) else None);
    ShownOptionHasNoSemicolon(if meta.Some? then Some(meta.value.modRevision) else None);
    ShownOptionHasNoSemicolon(if meta.Some? then Some(meta.value.version) else None);
    var p1, p2, p3 := "Key_Created:" + c, "Key_Modified:" + m, "Key_Version:" + v;
    assert p1[..12] == "Key_Created:" && p1[12..] == c;
    assert p2[..13] == "Key_Modified:" && p2[13..] == m;
    assert p3[..12] == "Key_Version:" && p3[12..] == v;
    NoSemicolonConcat("Key_Created:", c);
    NoSemicolonConcat("Key_Modified:", m);
    NoSemicolonConcat("Key_Version:", v);
  }

  lemma {:induction false} JoinFour(pieces: seq<string>)
    requires |pieces| == 4
    ensures Join(pieces, ';') == pieces[0] + ";" + pieces[1] + ";" + pieces[2] + ";" + pieces[3]
  {
    assert Join(pieces[3..], ';') == pieces[3];
    assert pieces[2..][1..] == pieces[3..];
    assert Join(pieces[2..], ';') == pieces[2] + ";" + pieces[3];
    assert pieces[1..][1..] == pieces[2..];
    assert Join(pieces[1..], ';') == pieces[1] + ";" + (pieces[2] + ";" + pieces[3]);
  }

  lemma {:induction false} GetRevisionLayout(meta: Option<KeyMeta>, h: string, c: string, m: string, v: string)
    requires h == ShowIntOption(if meta.Some? then Some(meta.value.headerRevision) else None)
    requires c == ShowIntOption(if meta.Some? then Some(meta.value.createRevision) else None)
    requires m == ShowIntOption(if meta.Some? then Some(meta.value.modRevision) else None)
    requires v == ShowIntOption(if meta.Some? then Some(meta.value.version) else None)
    ensures GetRevision(meta)
      == "{Get_Revision:" + (h + ";" + ("Key_Created:" + c) + ";" + ("Key_Modified:" + m) + ";" + ("Key_Version:" + v)) + "}"
  {
    var s, k1, k2, k3 := ";", "Key_Created:", "Key_Modified:", "Key_Version:";
    assert ";Key_Created:" == s + k1 && ";Key_Modified:" == s + k2 && ";Key_Version:" == s + k3;
    var tail := (s + k1) + c + (s + k2) + m + (s + k3) + v + "}";
    assert GetRevision(meta) == "{Get_Revision:" + h + tail;
    Regroup(s, k1, c, k2, m, k3, v, "}");
    assert tail == s + (k1 + c) + s + (k2 + m) + s + (k3 + v) + "}";
    Regroup2("{Get_Revision:", h, s, k1 + c, k2 + m, k3 + v, "}");
  }

  lemma {:induction false} Regroup(s: string, k1: string, c: string, k2: string, m: string, k3: string, v: string, e: string)
    ensures (s + k1) + c + (s + k2) + m + (s + k3) + v + e == s + (k1 + c) + s + (k2 + m) + s + (k3 + v) + e
  {
  }

  lemma {:induction false} Regroup2(a: string, h: string, s: string, p1: string, p2: string, p3: string, e: string)
    ensures a + h + (s + p1 + s + p2 + s + p3 + e) == a + (h + s + p1 + s + p2 + s + p3) + e
  {
  }

  lemma {:induction false} ShownOptionHasNoSemicolon(v: Option<int>)
    ensures ';' !in ShowIntOption(v)
    ensures ShowsNumber(ShowIntOption(v), v)
  {
  }

  lemma {:induction false} NoSemicolonConcat(a: string, b: string)
    requires ';' !in a && ';' !in b
    ensures ';' !in a + b
  {
  }

  /** The value a successful get records: the decoded value, or None for an
      absent key (an empty value is falsy and also gives None). */
  function RecordedValue(v: Option<string>): (r: Option<string>)
    ensures r.None? <==> v.None? || v.value == ""
    ensures r.Some? ==> r == v
  {
    if v.Some? && v.value != "" then v else None
  }

  /** The record of a put (request i reads the clock at 2i and 2i + 1):
      successful with its revision, or failed with none. */
  function PutRecord(trafficId: int, i: nat, a: Attempt, clock: nat -> int): (r: Record)
    ensures r.trafficId == trafficId && r.requestType == "put" && r.key == Keys[a.keyDraw % |Keys|]
    ensures r.value == Some(Helper.RandomValue(a.valueDraw)) && r.response.None?
    ensures r.start == clock(2 * i) && r.end == clock(2 * i + 1)
    ensures r.success <==> a.put.Returned?
    ensures a.put.Returned? ==> r.revision == Some(PutRevision(a.put.value))
    ensures a.put.Raised? ==> r.revision.None?
  {
    var key := Keys[a.keyDraw % |Keys|];
    var value := Helper.RandomValue(a.valueDraw);
    var t := Request.TimedRequest(clock, 2 * i, a.put);
    if t.success then Record(trafficId, "put", t.start, t.end, key, Some(value), None, true, Some(PutRevision(t.response.value)))
    else Record(trafficId, "put", t.start, t.end, key, Some(value), None, false, None)
  }

  /** The record of a get: the value read, for a successful get only. */
  function GetRecord(trafficId: int, i: nat, a: Attempt, clock: nat -> int): (r: Option<Record>)
    ensures r.Some? <==> a.get.Returned?
    ensures r.Some? ==>
      && r.value.trafficId == trafficId && r.value.requestType == "get" && r.value.key == Keys[a.keyDraw % |Keys|]
      && r.value.start == clock(2 * i) && r.value.end == clock(2 * i + 1)
      && r.value.success && r.value.value.None?
      && r.value.revision == Some(GetRevision(a.get.value.meta))
    ensures r.Some? ==>
      var answer := a.get.value.value;
      && (r.value.response.None? <==> answer.None? || answer.value == "")
      && (r.value.response.Some? ==> r.value.response == answer)
  {
    var key := Keys[a.keyDraw % |Keys|];
    var t := Request.TimedRequest(clock, 2 * i, a.get);
    if t.success then
      var response := t.response.value;
      Some(Record(trafficId, "get", t.start, t.end, key, None, RecordedValue(response.value), true, Some(GetRevision(response.meta))))
    else None
  }

  /** The record the i-th request leaves, if any: every put, a successful
      get, nothing for a failed get or an unknown type. */
  function RecordOf(trafficId: int, requestType: string, i: nat, a: Attempt, clock: nat -> int): (r: Option<Record>)
    ensures r.Some? <==> requestType == "put" || (requestType == "get" && a.get.Returned?)
    ensures r.Some? ==> r.value.requestType == requestType
  {
    if requestType == "put" then Some(PutRecord(trafficId, i, a, clock))
    else if requestType == "get" then GetRecord(trafficId, i, a, clock)
    else None
  }

  /** The records of the requests, in request order. */
  function Records(trafficId: int, requests: seq<string>, attempt: nat -> Attempt, clock: nat -> int): seq<Record>
    decreases |requests|
  {
    if requests == [] then []
    else
      var n := |requests| - 1;
      Records(trafficId, requests[..n], attempt, clock)
        + match RecordOf(trafficId, requests[n], n, attempt(n), clock) case Some(r) => [r] case None => []
  }

  lemma {:induction false} RecordsSnoc(trafficId: int, requests: seq<string>, attempt: nat -> Attempt, clock: nat -> int, n: nat)
    requires n < |requests|
    ensures Records(trafficId, requests[..n + 1], attempt, clock) ==
      Records(trafficId, requests[..n], attempt, clock)
        + match RecordOf(trafficId, requests[n], n, attempt(n), clock) case Some(r) => [r] case None => []
  {
    assert requests[..n + 1][..n] == requests[..n];
  }

  /** The log lines of a list of records. */
  function FormatAll(records: seq<Record>): (lines: seq<string>)
    ensures |lines| == |records|
    ensures forall i :: 0 <= i < |records| ==> lines[i] == FormatOperation(records[i])
  {
    seq(|records|, i requires 0 <= i < |records| => FormatOperation(records[i]))
  }

  lemma {:induction false} FormatAllSnoc(records: seq<Record>, r: Record)
    ensures FormatAll(records + [r]) == FormatAll(records) + [FormatOperation(r)]
  {
    var a, b := FormatAll(records + [r]), FormatAll(records) + [FormatOperation(r)];
    assert |a| == |b|;
    forall i | 0 <= i < |a| ensures a[i] == b[i] {
      if i < |records| {
        assert (records + [r])[i] == records[i];
      }
    }
  }

  /** How many requests leave a record: the puts and the gets that
      succeed. */
  function RecordedCount(requests: seq<string>, attempt: nat -> Attempt): nat
    decreases |requests|
  {
    if requests == [] then 0
    else
      var n := |requests| - 1;
      RecordedCount(requests[..n], attempt)
        + if requests[n] == "put" || (requests[n] == "get" && attempt(n).get.Returned?) then 1 else 0
  }

  /** There is one record per put and per successful get. */
  lemma {:induction false} RecordsCount(trafficId: int, requests: seq<string>, attempt: nat -> Attempt, clock: nat -> int)
    ensures |Records(trafficId, requests, attempt, clock)| == RecordedCount(requests, attempt)
    decreases |requests|
  {
    if requests != [] {
      RecordsCount(trafficId, requests[..|requests| - 1], attempt, clock);
    }
  }

  /** Every record is a put (with an eight-character alphanumeric value and
      a revision exactly when it succeeded) or a successful get (with no
      value), on one of KEYS. */
  lemma {:induction false} RecordsShape(trafficId: int, requests: seq<string>, attempt: nat -> Attempt, clock: nat -> int)
    ensures forall r :: r in Records(trafficId, requests, attempt, clock) ==>
      && r.trafficId == trafficId
      && r.key in Keys
      && (r.requestType == "put" || r.requestType == "get")
      && (r.requestType == "put" ==> r.value.Some? && |r.value.value| == 8 && (r.success <==> r.revision.Some?))
      && (r.requestType == "get" ==> r.success && r.value.None? && r.revision.Some?)
    decreases |requests|
  {
    if requests != [] {
      var n := |requests| - 1;
      RecordsShape(trafficId, requests[..n], attempt, clock);
    }
  }

  /** A value a driver writes: eight letters or digits. */
  predicate DriverValue(v: string)
  {
    |v| == 8 && forall i :: 0 <= i < |v| ==> Helper.IsAlphanumeric(v[i])
  }

  /** The store answers a get with a value some driver wrote, if any. */
  predicate DriverAnswer(a: Attempt)
  {
    a.get.Returned? && a.get.value.value.Some? ==> DriverValue(a.get.value.value.value)
  }

  /** The clock stays in Go's int64 range. */
  ghost predicate Int64Clock(clock: nat -> int)
  {
    forall t :: InInt64(clock(t))
  }

  lemma {:induction false} DriverValueIsPlain(v: string)
    requires DriverValue(v)
    ensures PlainField(v) && v != "None"
  {
  }

  /** The put record, with a clock in range, is plain and within Go's
      integer range. */
  lemma {:induction false} PutRecordIsPlain(trafficId: int, i: nat, a: Attempt, clock: nat -> int)
    requires InInt64(trafficId) && InInt64(clock(2 * i)) && InInt64(clock(2 * i + 1))
    ensures var r := PutRecord(trafficId, i, a, clock);
      PlainRecord(r) && InInt64(r.trafficId) && InInt64(r.start) && InInt64(r.end)
  {
    var r := PutRecord(trafficId, i, a, clock);
    if a.put.Returned? {
      PutRevisionIsPlain(a.put.value);
    }
    PutShapeIsPlain(r);
  }

  /** A put record on one of KEYS, with a driver-written value, no
      response, and a plain revision if any, is plain. */
  lemma {:induction false} PutShapeIsPlain(r: Record)
    requires r.requestType == "put" && r.key in Keys && r.response.None?
    requires r.value.Some? && DriverValue(r.value.value)
    requires r.revision.Some? ==> PlainField(r.revision.value)
    ensures PlainRecord(r)
  {
    DriverValueIsPlain(r.value.value);
    assert PlainField("None");
    assert PlainField("put");
    KeysArePlain();
  }

  /** A get record, with a store holding only driver values and a clock in
      range, is plain and within Go's integer range. */
  lemma {:induction false} GetRecordIsPlain(trafficId: int, i: nat, a: Attempt, clock: nat -> int)
    requires DriverAnswer(a)
    requires InInt64(trafficId) && InInt64(clock(2 * i)) && InInt64(clock(2 * i + 1))
    ensures GetRecord(trafficId, i, a, clock).Some? ==>
      var r := GetRecord(trafficId, i, a, clock).value;
      PlainRecord(r) && InInt64(r.trafficId) && InInt64(r.start) && InInt64(r.end)
  {
    if a.get.Returned? {
      var r := GetRecord(trafficId, i, a, clock).value;
      GetRevisionIsPlain(a.get.value.meta);
      GetShapeIsPlain(r);
    }
  }

  /** A get record on one of KEYS, with no value, a driver-written
      response if any, and a plain revision, is plain. */
  lemma {:induction false} GetShapeIsPlain(r: Record)
    requires r.requestType == "get" && r.key in Keys && r.value.None?
    requires r.response.Some? ==> DriverValue(r.response.value)
    requires r.revision.Some? && PlainField(r.revision.value)
    ensures PlainRecord(r)
  {
    if r.response.Some? {
      DriverValueIsPlain(r.response.value);
    } else {
      assert PlainField("None");
    }
    assert PlainField("get");
    KeysArePlain();
  }

  lemma {:induction false} KeysArePlain()
    ensures forall k :: k in Keys ==> PlainField(k)
  {
  }

  lemma {:induction false} RecordOfIsPlain(trafficId: int, requestType: string, i: nat, a: Attempt, clock: nat -> int)
    requires DriverAnswer(a)
    requires InInt64(trafficId) && InInt64(clock(2 * i)) && InInt64(clock(2 * i + 1))
    ensures RecordOf(trafficId, requestType, i, a, clock).Some? ==>
      var r := RecordOf(trafficId, requestType, i, a, clock).value;
      PlainRecord(r) && InInt64(r.trafficId) && InInt64(r.start) && InInt64(r.end)
  {
    if requestType == "put" {
      PutRecordIsPlain(trafficId, i, a, clock);
    } else if requestType == "get" {
      GetRecordIsPlain(trafficId, i, a, clock);
    }
  }

  /** A get that finds no such key is recorded, and its line reads back,
      through the Go parser, as a successful get whose output is the
      register's initial value. */
  lemma {:induction false} AbsentGetReadsAsInit(trafficId: int, i: nat, a: Attempt, clock: nat -> int)
    requires a.get.Returned? && a.get.value.value.None?
    requires InInt64(trafficId) && InInt64(clock(2 * i)) && InInt64(clock(2 * i + 1))
    ensures GetRecord(trafficId, i, a, clock).Some?
    ensures var e := ParseLine(FormatOperation(GetRecord(trafficId, i, a, clock).value));
      && e.Some? && e.value.op.input.op == GetOp && !e.value.failed
      && e.value.op.output.value == Init()
  {
    GetRecordIsPlain(trafficId, i, a, clock);
    FormatParseRoundTrip(GetRecord(trafficId, i, a, clock).value);
  }

  /** Every record of a run is plain and in range when the store holds only
      driver values and the clock stays in range. */
  lemma {:induction false} RecordsArePlain(trafficId: int, requests: seq<string>, attempt: nat -> Attempt, clock: nat -> int)
    requires InInt64(trafficId) && Int64Clock(clock)
    requires forall i :: 0 <= i < |requests| ==> DriverAnswer(attempt(i))
    ensures forall r :: r in Records(trafficId, requests, attempt, clock) ==>
      PlainRecord(r) && InInt64(r.trafficId) && InInt64(r.start) && InInt64(r.end)
    decreases |requests|
  {
    if requests != [] {
      var n := |requests| - 1;
      RecordsArePlain(trafficId, requests[..n], attempt, clock);
      RecordOfIsPlain(trafficId, requests[n], n, attempt(n), clock);
    }
  }

  /** Every line the driver records reads back, through the Go parser, as
      the operation it recorded: its key, kind, value, response, times and
      success flag survive the trip. */
  lemma {:induction false} RecordsReadBack(trafficId: int, requests: seq<string>, attempt: nat -> Attempt, clock: nat -> int)
    requires InInt64(trafficId) && Int64Clock(clock)
    requires forall i :: 0 <= i < |requests| ==> DriverAnswer(attempt(i))
    ensures forall r :: r in Records(trafficId, requests, attempt, clock) ==>
      ParseLine(FormatOperation(r)) == Some(ExpectedEntry(r))
  {
    RecordsArePlain(trafficId, requests, attempt, clock);
    forall r | r in Records(trafficId, requests, attempt, clock)
      ensures ParseLine(FormatOperation(r)) == Some(ExpectedEntry(r))
    {
      FormatParseRoundTrip(r);
    }
  }

  /** After a run, a reader of a log that ended a line sees the old lines
      followed by exactly the run's formatted records. */
  lemma {:induction false} LogReadsBackAfterRun(log: string, trafficId: int, requests: seq<string>, attempt: nat -> Attempt, clock: nat -> int)
    requires EndsLine(log)
    requires InInt64(trafficId) && Int64Clock(clock)
    requires forall i :: 0 <= i < |requests| ==> DriverAnswer(attempt(i))
    ensures Lines(log + Terminated(FormatAll(Records(trafficId, requests, attempt, clock))))
      == Lines(log) + FormatAll(Records(trafficId, requests, attempt, clock))
  {
    var records := Records(trafficId, requests, attempt, clock);
    var lines := FormatAll(records);
    RecordsArePlain(trafficId, requests, attempt, clock);
    forall i | 0 <= i < |lines| ensures '\n' !in lines[i] && !EndsWithCR(lines[i]) {
      assert records[i] in records;
    }
    LinesAfterAppend(log, lines);
  }

  /** generate_random_value: the same eight-character draw as the lease
      helpers' generate_random_string. */
  method GenerateRandomValue(draw: nat -> nat) returns (value: string)
    ensures value == Helper.RandomValue(draw)
  {
    value := Helper.GenerateRandomString(draw);
  }

  /** The body of execute_requests' loop for the i-th request: a put is
      always recorded, a get only when it succeeds, an unknown type never. */
  method ExecuteRequest(trafficId: int, requestType: string, i: nat, a: Attempt, clock: nat -> int)
    returns (record: Option<Record>)
    ensures record == RecordOf(trafficId, requestType, i, a, clock)
    ensures requestType == "put" ==>
      && record.Some? && (record.value.success <==> a.put.Returned?)
      && (a.put.Returned? ==> record.value.revision == Some(PutRevision(a.put.value)))
    ensures requestType == "get" ==>
      && (record.Some? <==> a.get.Returned?)
      && (record.Some? ==>
            var answer := a.get.value.value;
            && (record.value.response.None? <==> answer.None? || answer.value == "")
            && (record.value.response.Some? ==> record.value.response == answer))
    ensures requestType != "put" && requestType != "get" ==> record.None?
  {
    if requestType == "put" {
      var key := Keys[a.keyDraw % |Keys|];
      var value := GenerateRandomValue(a.valueDraw);
      var t := Request.TimedRequest(clock, 2 * i, a.put);
      if t.success {
        var revision := PutRevision(t.response.value);
        record := Some(Record(trafficId, requestType, t.start, t.end, key, Some(value), None, true, Some(revision)));
      } else {
        record := Some(Record(trafficId, requestType, t.start, t.end, key, Some(value), None, false, None));
      }
    } else if requestType == "get" {
      var key := Keys[a.keyDraw % |Keys|];
      var t := Request.TimedRequest(clock, 2 * i, a.get);
      if t.success {
        var response := t.response.value;
        var value := RecordedValue(response.value);
        var revision := GetRevision(response.meta);
        record := Some(Record(trafficId, requestType, t.start, t.end, key, None, value, true, Some(revision)));
      } else {
        record := None;
      }
    } else {
      record := None;
    }
  }

  /** execute_requests: runs the requests in order, collects one formatted
      line per recorded operation and appends them to the log in a single
      write at the end. */
  method ExecuteRequests(files: TrafficFiles, trafficId: int, requests: seq<string>, attempt: nat -> Attempt, clock: nat -> int)
    modifies files`log
    ensures files.counter == old(files.counter)
    ensures files.log == old(files.log) + Terminated(FormatAll(Records(trafficId, requests, attempt, clock)))
  {
    var operations: seq<string> := [];
    ghost var records: seq<Record> := [];
    for i := 0 to |requests|
      invariant files.log == old(files.log) && files.counter == old(files.counter)
      invariant records == Records(trafficId, requests[..i], attempt, clock)
      invariant operations == FormatAll(records)
    {
      RecordsSnoc(trafficId, requests, attempt, clock, i);
      var record := ExecuteRequest(trafficId, requests[i], i, attempt(i), clock);
      if record.Some? {
        FormatAllSnoc(records, record.value);
        operations := operations + [FormatOperation(record.value)];
        records := records + [record.value];
      }
    }
    assert requests[..|requests|] == requests;
    files.WriteOperations(operations);
  }

  /** How a run of the driver ends: generate_traffic_id raised and the
      script died, the client could not connect (nothing is logged), or the
      requests ran and were logged. */
  datatype RunOutcome = Crashed | NotConnected(trafficId: int) | Completed(trafficId: int, requests: seq<string>)

  /** What a run that took trafficId leaves behind: if the client did not
      connect, nothing more is logged; otherwise the requests drawn, each of
      a known type and as many as the sample asks for, and the log extended
      by their records. */
  predicate RanRequests(outcome: RunOutcome, trafficId: int, sample: real, connects: bool, log0: string, log1: string, attempt: nat -> Attempt, clock: nat -> int)
  {
    && !outcome.Crashed? && outcome.trafficId == trafficId
    && (outcome.NotConnected? <==> !connects)
    && (outcome.NotConnected? ==> log1 == log0)
    && (outcome.Completed? ==>
      && |outcome.requests| == Request.RequestCount(sample)
      && (forall i :: 0 <= i < |outcome.requests| ==> outcome.requests[i] in RequestTypes)
      && log1 == log0 + Terminated(FormatAll(Records(trafficId, outcome.requests, attempt, clock))))
  }

  /** simulate_traffic: takes a traffic id, draws the request types, and
      runs them if the client connects. */
  method SimulateTraffic(files: TrafficFiles, sample: real, typeDraw: nat -> nat, connects: bool, attempt: nat -> Attempt, clock: nat -> int)
    returns (outcome: RunOutcome)
    modifies files
    ensures outcome.Crashed? <==> NextCounter(old(files.counter)).None?
    ensures outcome.Crashed? ==> files.counter == old(files.counter) && files.log == old(files.log)
    ensures !outcome.Crashed? ==>
      && outcome.trafficId == NextCounter(old(files.counter)).value.0
      && files.counter == Some(NextCounter(old(files.counter)).value.1)
      && RanRequests(outcome, outcome.trafficId, sample, connects, old(files.log), files.log, attempt, clock)
  {
    var id := files.GenerateTrafficId();
    if id.None? {
      return RunOutcome.Crashed;
    }
    outcome := RunWithId(files, id.value, sample, typeDraw, connects, attempt, clock);
  }

  /** The part of simulate_traffic after the traffic id is taken. */
  method RunWithId(files: TrafficFiles, trafficId: int, sample: real, typeDraw: nat -> nat, connects: bool, attempt: nat -> Attempt, clock: nat -> int)
    returns (outcome: RunOutcome)
    modifies files`log
    ensures files.counter == old(files.counter)
    ensures RanRequests(outcome, trafficId, sample, connects, old(files.log), files.log, attempt, clock)
  {
    assert |RequestTypes| > 0;
    var requests := Request.GenerateRequests(sample, RequestTypes, typeDraw);
    if !connects {
      return RunOutcome.NotConnected(trafficId);
    }
    ExecuteRequests(files, trafficId, requests.value, attempt, clock);
    return Completed(trafficId, requests.value);
  }
}
