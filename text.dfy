/** Text handling shared by the Python writers and the Go readers of the
    operation log and the traffic-id counter: splitting on a separator
    (Go's strings.Split), joining (Python's str.join), line scanning
    (Go's bufio.ScanLines), decimal rendering and parsing (Python's str(int)
    and int(), Go's strconv.Atoi and strconv.ParseInt), Python's str.strip()
    and the byte-wise string order of Go's sort.Strings. */
module Text {
  import opened Wrappers

  // ---------------------------------------------------------------------
  // Splitting and joining

  /** Python's sep.join(parts). */
  function Join(parts: seq<string>, sep: char): string
  {
    if |parts| == 0 then ""
    else if |parts| == 1 then parts[0]
    else parts[0] + [sep] + Join(parts[1..], sep)
  }

  /** Go's strings.Split(s, string(sep)): the pieces between separators,
      never an empty list (splitting "" gives [""]). Joining the pieces
      back gives the input. */
  function Split(s: string, sep: char): (parts: seq<string>)
    ensures |parts| >= 1
    ensures forall i :: 0 <= i < |parts| ==> sep !in parts[i]
    ensures Join(parts, sep) == s
    decreases |s|
  {
    if |s| == 0 then [""]
    else if s[0] == sep then
      var rest := Split(s[1..], sep);
      assert ([""] + rest)[1..] == rest;
      assert s == [sep] + s[1..];
      [""] + rest
    else
      var rest := Split(s[1..], sep);
      var parts := [[s[0]] + rest[0]] + rest[1..];
      assert parts[1..] == rest[1..];
      assert s == [s[0]] + s[1..];
      parts
  }

  lemma {:induction false} SplitNoSeparator(a: string, sep: char)
    requires sep !in a
    ensures Split(a, sep) == [a]
    decreases |a|
  {
    if |a| > 0 {
      assert a[1..] == a[1..];
      assert sep !in a[1..] by {
        forall i | 0 <= i < |a[1..]| ensures a[1..][i] != sep { assert a[1..][i] == a[i + 1]; }
      }
      SplitNoSeparator(a[1..], sep);
      assert [a[0]] + a[1..] == a;
    }
  }

  /** Splitting around one separator splits the two sides independently. */
  lemma {:induction false} SplitAppend(x: string, y: string, sep: char)
    ensures Split(x + [sep] + y, sep) == Split(x, sep) + Split(y, sep)
    decreases |x|
  {
    var s := x + [sep] + y;
    if |x| == 0 {
      assert s == [sep] + y;
      assert s[1..] == y;
    } else {
      assert s[0] == x[0];
      assert s[1..] == x[1..] + [sep] + y;
      SplitAppend(x[1..], y, sep);
    }
  }

  /** Joining pieces that hold no separator and splitting again gives the
      pieces back. */
  lemma {:induction false} SplitJoin(parts: seq<string>, sep: char)
    requires |parts| >= 1
    requires forall i :: 0 <= i < |parts| ==> sep !in parts[i]
    ensures Split(Join(parts, sep), sep) == parts
    decreases |parts|
  {
    if |parts| == 1 {
      SplitNoSeparator(parts[0], sep);
    } else {
      SplitJoin(parts[1..], sep);
      SplitNoSeparator(parts[0], sep);
      SplitAppend(parts[0], Join(parts[1..], sep), sep);
      assert [parts[0]] + parts[1..] == parts;
    }
  }

  // ---------------------------------------------------------------------
  // Newline-terminated text and line scanning

  /** Each line followed by "\n", as Python's f.write(f"{o}\n") produces. */
  function Terminated(lines: seq<string>): string
  {
    if lines == [] then "" else lines[0] + "\n" + Terminated(lines[1..])
  }

  lemma {:induction false} TerminatedSnoc(lines: seq<string>, line: string)
    ensures Terminated(lines + [line]) == Terminated(lines) + line + "\n"
    decreases |lines|
  {
    if lines == [] {
      assert [line][1..] == [];
    } else {
      assert (lines + [line])[1..] == lines[1..] + [line];
      TerminatedSnoc(lines[1..], line);
    }
  }

  /** A text that is empty or ends with a newline: appending lines to it
      starts a fresh line. */
  predicate EndsLine(text: string)
  {
    text == [] || text[|text| - 1] == '\n'
  }

  predicate EndsWithCR(line: string)
  {
    |line| > 0 && line[|line| - 1] == '\r'
  }

  /** bufio.ScanLines drops one carriage return before the newline. */
  function DropCR(line: string): string
  {
    if EndsWithCR(line) then line[..|line| - 1] else line
  }

  function DropAllCR(lines: seq<string>): (r: seq<string>)
    ensures |r| == |lines|
    ensures forall i :: 0 <= i < |lines| ==> r[i] == DropCR(lines[i])
    decreases |lines|
  {
    if lines == [] then [] else [DropCR(lines[0])] + DropAllCR(lines[1..])
  }

  lemma {:induction false} DropAllCRAppend(a: seq<string>, b: seq<string>)
    ensures DropAllCR(a + b) == DropAllCR(a) + DropAllCR(b)
    decreases |a|
  {
    if a != [] {
      assert (a + b)[1..] == a[1..] + b;
      DropAllCRAppend(a[1..], b);
    } else {
      assert a + b == b;
    }
  }

  lemma {:induction false} DropAllCRKeeps(lines: seq<string>)
    requires forall i :: 0 <= i < |lines| ==> !EndsWithCR(lines[i])
    ensures DropAllCR(lines) == lines
    decreases |lines|
  {
    if lines != [] {
      DropAllCRKeeps(lines[1..]);
      assert [lines[0]] + lines[1..] == lines;
    }
  }

  /** The lines a bufio.Scanner with the default ScanLines split function
      yields for a whole file: the pieces between newlines, an empty piece
      after a final newline not counted, a trailing "\r" dropped. */
  function Lines(text: string): (lines: seq<string>)
    ensures text == "" ==> lines == []
    ensures '\n' !in text && text != "" ==> lines == [DropCR(text)]
    ensures forall i :: 0 <= i < |lines| ==> '\n' !in lines[i]
  {
    var parts := Split(text, '\n');
    var complete := if parts[|parts| - 1] == "" then parts[..|parts| - 1] else parts;
    SplitOneLine(text);
    DropCRKeepsLines(complete);
    DropAllCR(complete)
  }

  lemma {:induction false} SplitOneLine(text: string)
    ensures '\n' !in text ==> Split(text, '\n') == [text]
  {
    if '\n' !in text {
      SplitNoSeparator(text, '\n');
    }
  }

  /** Dropping carriage returns adds no newline. */
  lemma {:induction false} DropCRKeepsLines(complete: seq<string>)
    requires forall i :: 0 <= i < |complete| ==> '\n' !in complete[i]
    ensures forall i :: 0 <= i < |complete| ==> '\n' !in DropAllCR(complete)[i]
  {
    forall i | 0 <= i < |complete| ensures '\n' !in DropAllCR(complete)[i] {
      var l := complete[i];
      if EndsWithCR(l) {
        assert forall k :: 0 <= k < |l| - 1 ==> l[..|l| - 1][k] == l[k];
      }
    }
  }

  lemma {:induction false} SplitTerminated(lines: seq<string>)
    requires forall i :: 0 <= i < |lines| ==> '\n' !in lines[i]
    ensures Split(Terminated(lines), '\n') == lines + [""]
    decreases |lines|
  {
    if lines != [] {
      SplitTerminated(lines[1..]);
      SplitNoSeparator(lines[0], '\n');
      assert Terminated(lines) == lines[0] + ['\n'] + Terminated(lines[1..]);
      SplitAppend(lines[0], Terminated(lines[1..]), '\n');
      assert [lines[0]] + lines[1..] == lines;
    }
  }

  /** A text whose pieces end in an empty one has the other pieces as its
      lines. */
  lemma {:induction false} LinesOfTerminatedPieces(text: string, complete: seq<string>)
    requires Split(text, '\n') == complete + [""]
    ensures Lines(text) == DropAllCR(complete)
  {
    var parts := complete + [""];
    assert parts[..|parts| - 1] == complete;
  }

  /** Appending newline-terminated lines to a text that ends a line makes a
      reader see exactly the old lines followed by the new ones. */
  lemma {:induction false} LinesAfterAppend(text: string, lines: seq<string>)
    requires EndsLine(text)
    requires forall i :: 0 <= i < |lines| ==> '\n' !in lines[i] && !EndsWithCR(lines[i])
    ensures Lines(text + Terminated(lines)) == Lines(text) + lines
  {
    SplitTerminated(lines);
    DropAllCRKeeps(lines);
    if text == [] {
      assert text + Terminated(lines) == Terminated(lines);
      LinesOfTerminatedPieces(Terminated(lines), lines);
    } else {
      var head := text[..|text| - 1];
      assert text == head + "\n";
      LinesAfterLine(text, head, lines);
    }
  }

  /** The step of LinesAfterAppend for a text that holds at least one line. */
  lemma {:induction false} LinesAfterLine(text: string, head: string, lines: seq<string>)
    requires text == head + "\n"
    requires Split(Terminated(lines), '\n') == lines + [""]
    requires DropAllCR(lines) == lines
    ensures Lines(text + Terminated(lines)) == Lines(text) + lines
  {
    var h := Split(head, '\n');
    LinesAfterHead(head, "");
    assert text + "" == text;
    LinesAfterHead(head, Terminated(lines));
    assert h + (lines + [""]) == (h + lines) + [""];
    LinesOfTerminatedPieces(text + Terminated(lines), h + lines);
    DropAllCRAppend(h, lines);
  }

  /** The pieces of a text after a line are the line's pieces followed by
      the pieces of the rest. */
  lemma {:induction false} LinesAfterHead(head: string, rest: string)
    ensures Split(head + "\n" + rest, '\n') == Split(head, '\n') + Split(rest, '\n')
  {
    assert head + "\n" + rest == head + ['\n'] + rest;
    SplitAppend(head, rest, '\n');
  }

  // ---------------------------------------------------------------------
  // Decimal numbers

  predicate IsDigit(c: char)
  {
    '0' <= c <= '9'
  }

  predicate AllDigits(s: string)
  {
    forall i :: 0 <= i < |s| ==> IsDigit(s[i])
  }

  function DigitChar(d: nat): (c: char)
    requires d < 10
    ensures IsDigit(c) && (c as int) - ('0' as int) == d
  {
    (('0' as int) + d) as char
  }

  /** The value of a string of decimal digits, read left to right. */
  function DigitsValue(s: string): nat
    requires AllDigits(s)
    decreases |s|
  {
    if s == [] then 0 else DigitsValue(s[..|s| - 1]) * 10 + ((s[|s| - 1] as int) - ('0' as int))
  }

  /** The decimal digits of a natural number, without leading zeros. */
  function NatToString(n: nat): (s: string)
    ensures |s| > 0 && AllDigits(s) && DigitsValue(s) == n
    ensures |s| > 1 ==> s[0] != '0'
    decreases n
  {
    if n < 10 then [DigitChar(n)]
    else
      var s := NatToString(n / 10) + [DigitChar(n % 10)];
      assert s[..|s| - 1] == NatToString(n / 10);
      s
  }

  /** Decimal syntax shared by Go's strconv.Atoi and strconv.ParseInt(s, 10, _)
      and by Python's int() once surrounding whitespace is stripped: an
      optional sign, then one or more digits. The value is unbounded here;
      the callers apply their own range rules. */
  function ParseDecimal(s: string): Option<int>
  {
    if |s| > 0 && (s[0] == '-' || s[0] == '+') then
      if |s| > 1 && AllDigits(s[1..]) then
        var magnitude: int := DigitsValue(s[1..]);
        Some(if s[0] == '-' then -magnitude else magnitude)
      else None
    else if |s| > 0 && AllDigits(s) then Some(DigitsValue(s))
    else None
  }

  /** Python's str(n) for an int (and Go's decimal formatting): the
      rendering parses back to the same number and holds only digits and
      a leading minus sign. */
  function IntToString(n: int): (s: string)
    ensures ParseDecimal(s) == Some(n)
    ensures forall i :: 0 <= i < |s| ==> IsDigit(s[i]) || (i == 0 && s[i] == '-')
  {
    if n < 0 then
      var s := "-" + NatToString(-n);
      assert s[1..] == NatToString(-n);
      s
    else NatToString(n)
  }

  const Int64Min: int := -0x8000_0000_0000_0000
  const Int64Max: int := 0x7fff_ffff_ffff_ffff

  predicate InInt64(n: int)
  {
    Int64Min <= n <= Int64Max
  }

  /** Go's strconv.Atoi on a 64-bit platform: the value, or an error
      (None) for bad syntax or a value outside the int range. */
  function Atoi(s: string): (r: Option<int>)
    ensures r.Some? <==> ParseDecimal(s).Some? && InInt64(ParseDecimal(s).value)
    ensures r.Some? ==> r.value == ParseDecimal(s).value
  {
    match ParseDecimal(s)
    case Some(v) => if InInt64(v) then Some(v) else None
    case None => None
  }

  /** Go's strconv.ParseInt(s, 10, 64) with its error ignored, as the log
      reader does: 0 after a syntax error, the nearest bound after a range
      error, the value otherwise. */
  function ParseInt64(s: string): (r: int)
    ensures InInt64(r)
    ensures ParseDecimal(s).None? ==> r == 0
    ensures ParseDecimal(s).Some? && InInt64(ParseDecimal(s).value) ==> r == ParseDecimal(s).value
    ensures ParseDecimal(s).Some? && ParseDecimal(s).value > Int64Max ==> r == Int64Max
    ensures ParseDecimal(s).Some? && ParseDecimal(s).value < Int64Min ==> r == Int64Min
  {
    match ParseDecimal(s)
    case None => 0
    case Some(v) => if v > Int64Max then Int64Max else if v < Int64Min then Int64Min else v
  }

  // ---------------------------------------------------------------------
  // Python's str.strip() and file.readline()

  /** The ASCII characters Python's str.isspace() accepts. */
  predicate IsSpace(c: char)
  {
    c == ' ' || c == '\t' || c == '\n' || c == '\r' || c == '\U{0b}' || c == '\U{0c}'
    || ('\U{1c}' <= c <= '\U{1f}')
  }

  /** s.lstrip(): the leading whitespace removed, and only that. */
  function StripLeft(s: string): (r: string)
    ensures |r| <= |s| && r == s[|s| - |r|..]
    ensures forall i :: 0 <= i < |s| - |r| ==> IsSpace(s[i])
    ensures r == [] || !IsSpace(r[0])
    decreases |s|
  {
    if |s| > 0 && IsSpace(s[0]) then StripLeft(s[1..]) else s
  }

  /** s.rstrip(): the trailing whitespace removed, and only that. */
  function StripRight(s: string): (r: string)
    ensures |r| <= |s| && r == s[..|r|]
    ensures forall i :: |r| <= i < |s| ==> IsSpace(s[i])
    ensures r == [] || !IsSpace(r[|r| - 1])
    decreases |s|
  {
    if |s| > 0 && IsSpace(s[|s| - 1]) then StripRight(s[..|s| - 1]) else s
  }

  /** r is the slice s[i..i + |r|], with only whitespace around it, and
      starts and ends with a character that is not whitespace. */
  predicate StrippedSlice(s: string, i: nat, r: string)
  {
    && i + |r| <= |s| && r == s[i..i + |r|]
    && (forall k :: 0 <= k < i ==> IsSpace(s[k]))
    && (forall k :: i + |r| <= k < |s| ==> IsSpace(s[k]))
    && (r == [] || (!IsSpace(r[0]) && !IsSpace(r[|r| - 1])))
  }

  /** Python's s.strip(): leading and trailing whitespace removed. The
      result is the slice s[i..i + |r|] with only whitespace around it. */
  function Strip(s: string): (r: string)
    ensures StrippedSlice(s, |s| - |StripLeft(s)|, r)
  {
    var left := StripLeft(s);
    var r := StripRight(left);
    StripAround(s, left, r);
    r
  }

  /** Right-stripping the left-stripped suffix s[i..] of s leaves the slice
      s[i..i + |r|], and what lies on either side of it is whitespace. */
  lemma {:induction false} StripAround(s: string, left: string, r: string)
    requires |left| <= |s| && left == s[|s| - |left|..]
    requires forall k :: 0 <= k < |s| - |left| ==> IsSpace(s[k])
    requires left == [] || !IsSpace(left[0])
    requires |r| <= |left| && r == left[..|r|]
    requires forall k :: |r| <= k < |left| ==> IsSpace(left[k])
    requires r == [] || !IsSpace(r[|r| - 1])
    ensures StrippedSlice(s, |s| - |left|, r)
  {
    if r != [] {
      assert r[0] == left[0];
    }
    var i := |s| - |left|;
    forall k | i + |r| <= k < |s| ensures IsSpace(s[k]) {
      assert s[k] == left[k - i];
    }
  }

  lemma {:induction false} StripKeepsOrEmpties(s: string)
    ensures (forall i :: 0 <= i < |s| ==> !IsSpace(s[i])) ==> Strip(s) == s
    ensures (forall i :: 0 <= i < |s| ==> IsSpace(s[i])) ==> Strip(s) == ""
  {
    if forall i :: 0 <= i < |s| ==> !IsSpace(s[i]) {
      StripKeeps(s);
    }
  }

  lemma {:induction false} StripKeeps(s: string)
    requires forall i :: 0 <= i < |s| ==> !IsSpace(s[i])
    ensures Strip(s) == s
  {
  }

  /** Python's f.readline() on a file holding `text`: everything up to and
      including the first newline, or the whole text when there is none. */
  function ReadLine(text: string): (line: string)
    ensures |line| <= |text| && line == text[..|line|]
    ensures '\n' !in text ==> line == text
    ensures '\n' in text ==> |line| > 0 && line[|line| - 1] == '\n' && '\n' !in line[..|line| - 1]
    decreases |text|
  {
    if text == [] then []
    else if text[0] == '\n' then "\n"
    else
      var rest := ReadLine(text[1..]);
      var line := [text[0]] + rest;
      assert '\n' !in text <==> '\n' !in text[1..] by {
        if '\n' in text[1..] {
          var i :| 0 <= i < |text[1..]| && text[1..][i] == '\n';
          assert text[i + 1] == '\n';
        }
        assert text == [text[0]] + text[1..];
      }
      assert '\n' in text ==> line[..|line| - 1] == [text[0]] + rest[..|rest| - 1];
      line
  }

  /** Python's int(s): surrounding whitespace is ignored. */
  function PyInt(s: string): (r: Option<int>)
    ensures (forall i :: 0 <= i < |s| ==> !IsSpace(s[i])) ==> r == ParseDecimal(s)
    ensures (forall i :: 0 <= i < |s| ==> IsSpace(s[i])) ==> r.None?
  {
    StripKeepsOrEmpties(s);
    ParseDecimal(Strip(s))
  }

  // ---------------------------------------------------------------------
  // String order

  /** Strict lexicographic order on code points, which agrees with Go's
      byte-wise string comparison on UTF-8 text. */
  predicate Less(a: string, b: string)
    decreases |a|
  {
    if |a| == 0 then |b| > 0
    else |b| > 0 && (a[0] < b[0] || (a[0] == b[0] && Less(a[1..], b[1..])))
  }

  lemma {:induction false} LessIrreflexive(a: string)
    ensures !Less(a, a)
    decreases |a|
  {
    if |a| > 0 {
      LessIrreflexive(a[1..]);
    }
  }

  lemma {:induction false} LessTransitive(a: string, b: string, c: string)
    requires Less(a, b) && Less(b, c)
    ensures Less(a, c)
    decreases |a|
  {
    if |a| > 0 && a[0] == b[0] && b[0] == c[0] {
      LessTransitive(a[1..], b[1..], c[1..]);
    }
  }

  lemma {:induction false} LessTotal(a: string, b: string)
    requires a != b
    ensures Less(a, b) || Less(b, a)
    decreases |a|
  {
    if |a| > 0 && |b| > 0 && a[0] == b[0] {
      assert a == [a[0]] + a[1..] && b == [b[0]] + b[1..];
      LessTotal(a[1..], b[1..]);
    }
  }

  lemma {:induction false} LessAsymmetric(a: string, b: string)
    requires Less(a, b)
    ensures !Less(b, a)
  {
    if Less(b, a) {
      LessTransitive(a, b, a);
      LessIrreflexive(a);
    }
  }
}
