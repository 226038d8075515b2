/** Source-context extraction (`_getCodeFrame`), three-character line
    numbers (`lineNumberTo3Char`) and the pretty rendering of a code frame
    with colourisation off (`_printPrettyCodeFrame`). */
module CodeFrames {
  import opened Wrappers
  import opened JsText

  /** `ICodeFrame`. `relevantLine` is `None` when the target line lies outside
      the file (the source then stores `undefined`). */
  datatype CodeFrame = CodeFrame(
    firstLineNumber: int,
    lineNumber: int,
    columnNumber: Option<int>,
    linesBefore: seq<string>,
    relevantLine: Option<string>,
    linesAfter: seq<string>)

  function Min(a: int, b: int): int { if a < b then a else b }
  function Max(a: int, b: int): int { if a < b then b else a }

  /** The lines at the indices `lo <= i < hi` that exist in `lines`, in order:
      what a `for` loop from `lo` to `hi` collects when it pushes `file[i]`
      whenever `file[i] != null`. */
  function Window(lines: seq<string>, lo: int, hi: int): seq<string>
    decreases hi - lo
  {
    if hi <= lo then []
    else Window(lines, lo, hi - 1) + (if 0 <= hi - 1 < |lines| then [lines[hi - 1]] else [])
  }

  /** The collected lines are the slice of `lines` between the two indices,
      each clamped to the file. */
  lemma {:induction false} WindowSlice(lines: seq<string>, lo: int, hi: int)
    ensures var a := Min(Max(lo, 0), |lines|);
      Window(lines, lo, hi) == lines[a..Min(Max(hi, a), |lines|)]
    decreases hi - lo
  {
    if hi > lo {
      WindowSlice(lines, lo, hi - 1);
    }
  }

  /** The loop visits `hi - lo` indices, so it collects at most that many lines. */
  lemma {:induction false} WindowLength(lines: seq<string>, lo: int, hi: int)
    ensures |Window(lines, lo, hi)| <= Max(0, hi - lo)
    decreases hi - lo
  {
    if hi > lo {
      WindowLength(lines, lo, hi - 1);
    }
  }

  /** The file's lines: `text.split("\n")`. */
  function Lines(text: string): seq<string> {
    Split(text, '\n')
  }

  /** `startAt` of `_getCodeFrame`: the 0-based index of the first context line. */
  function StartAt(lineNumber: int, k: int): int {
    if lineNumber - 1 - k < 0 then 0 else lineNumber - 1 - k
  }

  /** `endAt` of `_getCodeFrame`: the last index the after-loop visits. */
  function EndAt(lineNumber: int, k: int, length: nat): int {
    if lineNumber - 1 + k > length then length else lineNumber - 1 + k
  }

  /** The code frame `_getCodeFrame` builds from readable `lines` around the
      1-based `lineNumber` with `k` lines of context on each side. */
  function CodeFrameOf(lines: seq<string>, lineNumber: int, columnNumber: Option<int>, k: int): CodeFrame {
    CodeFrame(
      StartAt(lineNumber, k) + 1,
      lineNumber,
      columnNumber,
      Window(lines, StartAt(lineNumber, k), lineNumber - 1),
      if 0 <= lineNumber - 1 < |lines| then Some(lines[lineNumber - 1]) else None,
      Window(lines, lineNumber, EndAt(lineNumber, k, |lines|) + 1))
  }

  /** `_getCodeFrame(filePath, lineNumber, columnNumber, linesBeforeAndAfter)`;
      `file` is what reading `filePath` gives, `None` when the read fails,
      which the source swallows into an absent frame. */
  method GetCodeFrame(file: Option<string>, lineNumber: int, columnNumber: Option<int>, k: int)
    returns (r: Option<CodeFrame>)
    ensures file.None? ==> r.None?
    ensures file.Some? ==> r == Some(CodeFrameOf(Lines(file.value), lineNumber, columnNumber, k))
  {
    if file.None? {
      return None;
    }
    var frame := FrameOfLines(Lines(file.value), lineNumber, columnNumber, k);
    return Some(frame);
  }

  /** The body of `_getCodeFrame`'s `try` once the file is split into lines:
      the two `for` loops that collect the context lines. */
  method FrameOfLines(lines: seq<string>, lineNumber: int, columnNumber: Option<int>, k: int)
    returns (r: CodeFrame)
    ensures r == CodeFrameOf(lines, lineNumber, columnNumber, k)
  {
    var lineNumberMinusOne := lineNumber - 1;
    var startAt := if lineNumberMinusOne - k < 0 then 0 else lineNumberMinusOne - k;
    var endAt := if lineNumberMinusOne + k > |lines| then |lines| else lineNumberMinusOne + k;
    var linesBefore: seq<string> := [];
    var i := startAt;
    while i < lineNumberMinusOne
      invariant startAt <= i && (i <= lineNumberMinusOne || i == startAt)
      invariant linesBefore == Window(lines, startAt, i)
    {
      if 0 <= i < |lines| {
        linesBefore := linesBefore + [lines[i]];
      }
      i := i + 1;
    }
    var relevantLine := if 0 <= lineNumberMinusOne < |lines| then Some(lines[lineNumberMinusOne]) else None;
    var linesAfter: seq<string> := [];
    i := lineNumberMinusOne + 1;
    while i <= endAt
      invariant lineNumber <= i && (i <= endAt + 1 || i == lineNumber)
      invariant linesAfter == Window(lines, lineNumber, i)
    {
      if 0 <= i < |lines| {
        linesAfter := linesAfter + [lines[i]];
      }
      i := i + 1;
    }
    return CodeFrame(startAt + 1, lineNumber, columnNumber, linesBefore, relevantLine, linesAfter);
  }

  /** For a target line that exists, the frame holds that very line, up to
      `k` lines immediately before it and up to `k` immediately after it,
      clamped at the file's boundaries, and numbering from the first line
      shown puts the target line at its own number. */
  lemma CodeFrameAroundLine(lines: seq<string>, n: int, col: Option<int>, k: int)
    requires 1 <= n <= |lines| && k >= 0
    ensures CodeFrameOf(lines, n, col, k).relevantLine == Some(lines[n - 1])
    ensures |CodeFrameOf(lines, n, col, k).linesBefore| == Min(k, n - 1)
    ensures CodeFrameOf(lines, n, col, k).linesBefore == lines[n - 1 - Min(k, n - 1)..n - 1]
    ensures |CodeFrameOf(lines, n, col, k).linesAfter| == Min(k, |lines| - n)
    ensures CodeFrameOf(lines, n, col, k).linesAfter == lines[n..n + Min(k, |lines| - n)]
    ensures CodeFrameOf(lines, n, col, k).firstLineNumber == Max(0, n - 1 - k) + 1
    ensures CodeFrameOf(lines, n, col, k).firstLineNumber + |CodeFrameOf(lines, n, col, k).linesBefore| == n
  {
    WindowSlice(lines, StartAt(n, k), n - 1);
    WindowSlice(lines, n, EndAt(n, k, |lines|) + 1);
  }

  /** Whatever the target line, the first number shown is
      `max(0, lineNumber - 1 - k) + 1` and neither side holds more than `k`
      lines. */
  lemma CodeFrameBounds(lines: seq<string>, n: int, col: Option<int>, k: int)
    ensures CodeFrameOf(lines, n, col, k).firstLineNumber == Max(0, n - 1 - k) + 1
    ensures |CodeFrameOf(lines, n, col, k).linesBefore| <= Max(0, k)
    ensures |CodeFrameOf(lines, n, col, k).linesAfter| <= Max(0, k)
    ensures CodeFrameOf(lines, n, col, k).relevantLine.Some? <==> 1 <= n <= |lines|
  {
    WindowLength(lines, StartAt(n, k), n - 1);
    WindowLength(lines, n, EndAt(n, k, |lines|) + 1);
  }

  // ---------------------------------------------------------------------
  // lineNumberTo3Char

  /** `lineNumberTo3Char`: numbers below 10 get two leading zeros, below 100 one. */
  function LineNumberTo3Char(lineNumber: int): string {
    if lineNumber < 10 then "00" + IntToString(lineNumber)
    else if lineNumber < 100 then "0" + IntToString(lineNumber)
    else IntToString(lineNumber)
  }

  /** Below 1000 a line number becomes exactly three digits; from 100 on it is
      its plain decimal text; and the digits always read back as the number. */
  lemma {:induction false} LineNumberTo3CharDigits(n: nat)
    ensures n < 1000 ==> |LineNumberTo3Char(n)| == 3
    ensures n >= 100 ==> LineNumberTo3Char(n) == NatToString(n)
    ensures AllDigits(LineNumberTo3Char(n))
    ensures DecimalValue(LineNumberTo3Char(n)) == n
  {
    NatToStringLength(n);
    NatToStringValue(n);
    var d := NatToString(n);
    if n < 10 {
      Padded("00", d);
    } else if n < 100 {
      Padded("0", d);
    } else if n < 1000 {
      NatToStringBelow1000(n);
    }
  }

  /** Leading zeros keep a digit string's digits and value. */
  lemma Padded(z: string, d: string)
    requires forall i :: 0 <= i < |z| ==> z[i] == '0'
    requires AllDigits(d)
    ensures AllDigits(z + d)
    ensures DecimalValue(z + d) == DecimalValue(d)
  {
    LeadingZeros(z, d);
    assert forall i :: 0 <= i < |z + d| ==> (z + d)[i] == if i < |z| then z[i] else d[i - |z|];
  }

  lemma NatToStringBelow1000(n: nat)
    requires 100 <= n < 1000
    ensures |NatToString(n)| == 3
  {
    var q := n / 10;
    assert 10 <= q < 100;
    var p := q / 10;
    assert p < 10;
    assert |NatToString(p)| == 1;
    assert |NatToString(q)| == 2;
  }

  /** Instances of the general `LineNumberTo3CharDigits`: the examples of the
      helper's documentation, 7, 42 and 123. */
  lemma LineNumberTo3CharExamples()
    ensures LineNumberTo3Char(7) == "007"
    ensures LineNumberTo3Char(42) == "042"
    ensures LineNumberTo3Char(123) == "123"
  {
    assert NatToString(4) == "4";
    assert NatToString(42) == NatToString(4) + "2";
    assert NatToString(12) == NatToString(1) + "2";
    assert NatToString(123) == NatToString(12) + "3";
  }

  // ---------------------------------------------------------------------
  // _printPrettyCodeFrame, colourisation off

  /** The kinds of line `_printPrettyCodeFrame` writes. */
  datatype Row =
    | Header
    | Context(number: int, text: string)
    | Target(number: int, line: Option<string>)
    | Marker(column: int)

  predicate Printable(r: Row) {
    r.Marker? ==> r.column >= -8
  }

  /** A context line: `  NNN | text`. */
  function NumberedLine(number: int, line: string): string {
    "  " + LineNumberTo3Char(number) + " | " + line + "\n"
  }

  /** The target line: `> NNN | text`; an absent line prints as `undefined`. */
  function RelevantLine(number: int, line: Option<string>): string {
    "> " + LineNumberTo3Char(number) + " | " + line.GetOr("undefined") + "\n"
  }

  /** The column marker: `new Array(column + 8).join(" ")` followed by `^`. */
  function ColumnMarker(column: int): string
    requires column >= -8
  {
    Repeat(' ', if column + 7 >= 0 then column + 7 else 0) + "^" + "\n"
  }

  /** The text written for one row. */
  function Render(r: Row): string
    requires Printable(r)
  {
    match r
    case Header => "code frame:\n"
    case Context(n, t) => NumberedLine(n, t)
    case Target(n, t) => RelevantLine(n, t)
    case Marker(c) => ColumnMarker(c)
  }

  function RenderAll(rows: seq<Row>): (r: seq<string>)
    requires forall i :: 0 <= i < |rows| ==> Printable(rows[i])
    ensures |r| == |rows|
  {
    seq(|rows|, i requires 0 <= i < |rows| => Render(rows[i]))
  }

  /** Context rows numbered consecutively from `start`. */
  function Numbered(lines: seq<string>, start: int): (r: seq<Row>)
    ensures |r| == |lines|
    ensures forall i :: 0 <= i < |r| ==> r[i].Context?
  {
    seq(|lines|, j requires 0 <= j < |lines| => Context(start + j, lines[j]))
  }

  lemma NumberedSnoc(lines: seq<string>, start: int, i: nat)
    requires i < |lines|
    ensures RenderAll(Numbered(lines[..i + 1], start))
      == RenderAll(Numbered(lines[..i], start)) + [NumberedLine(start + i, lines[i])]
  {
    var a := RenderAll(Numbered(lines[..i + 1], start));
    var b := RenderAll(Numbered(lines[..i], start)) + [NumberedLine(start + i, lines[i])];
    assert |a| == |b|;
    forall j | 0 <= j < |a| ensures a[j] == b[j] {
      if j < i {
        assert lines[..i + 1][j] == lines[..i][j];
      }
    }
  }

  lemma RenderAllAppend(a: seq<Row>, b: seq<Row>)
    requires forall i :: 0 <= i < |a| ==> Printable(a[i])
    requires forall i :: 0 <= i < |b| ==> Printable(b[i])
    ensures RenderAll(a + b) == RenderAll(a) + RenderAll(b)
  {
    var l := RenderAll(a + b);
    var r := RenderAll(a) + RenderAll(b);
    assert |l| == |r|;
    forall i | 0 <= i < |l| ensures l[i] == r[i] {
      if i < |a| {
        assert (a + b)[i] == a[i];
      } else {
        assert (a + b)[i] == b[i - |a|];
      }
    }
  }

  /** The rows `_printPrettyCodeFrame` writes, in order. */
  function FrameRows(cf: CodeFrame): seq<Row> {
    var relevantNumber := cf.firstLineNumber + |cf.linesBefore|;
    [Header]
    + Numbered(cf.linesBefore, cf.firstLineNumber)
    + [Target(relevantNumber, cf.relevantLine)]
    + (if cf.columnNumber.Some? then [Marker(cf.columnNumber.value)] else [])
    + Numbered(cf.linesAfter, relevantNumber + 1)
  }

  /** The writes `_printPrettyCodeFrame` makes, in order. */
  function PrettyCodeFrame(cf: CodeFrame): seq<string>
    requires cf.columnNumber.Some? ==> cf.columnNumber.value >= -8
  {
    RenderAll(FrameRows(cf))
  }

  /** One of the two loops of `_printPrettyCodeFrame`: writes each line with
      the running counter, starting at `start`. */
  method PrintNumbered(lines: seq<string>, start: int) returns (out: seq<string>)
    ensures out == RenderAll(Numbered(lines, start))
  {
    out := [];
    var lineNumber := start;
    for i := 0 to |lines|
      invariant lineNumber == start + i
      invariant out == RenderAll(Numbered(lines[..i], start))
    {
      NumberedSnoc(lines, start, i);
      out := out + [NumberedLine(lineNumber, lines[i])];
      lineNumber := lineNumber + 1;
    }
    assert lines[..|lines|] == lines;
  }

  /** `_printPrettyCodeFrame`, returning the written strings; the running
      `lineNumber` counter numbers every line it writes. */
  method PrintPrettyCodeFrame(cf: CodeFrame) returns (out: seq<string>)
    requires cf.columnNumber.Some? ==> cf.columnNumber.value >= -8
    ensures out == PrettyCodeFrame(cf)
  {
    ghost var rows := [Header] + Numbered(cf.linesBefore, cf.firstLineNumber);
    var before := PrintNumbered(cf.linesBefore, cf.firstLineNumber);
    RenderAllAppend([Header], Numbered(cf.linesBefore, cf.firstLineNumber));
    out := ["code frame:\n"] + before;
    assert out == RenderAll(rows);
    var lineNumber := cf.firstLineNumber + |cf.linesBefore|;
    RenderAllAppend(rows, [Target(lineNumber, cf.relevantLine)]);
    rows := rows + [Target(lineNumber, cf.relevantLine)];
    out := out + [RelevantLine(lineNumber, cf.relevantLine)];
    lineNumber := lineNumber + 1;
    if cf.columnNumber.Some? {
      RenderAllAppend(rows, [Marker(cf.columnNumber.value)]);
      rows := rows + [Marker(cf.columnNumber.value)];
      out := out + [ColumnMarker(cf.columnNumber.value)];
    }
    assert out == RenderAll(rows);
    var after := PrintNumbered(cf.linesAfter, lineNumber);
    RenderAllAppend(rows, Numbered(cf.linesAfter, lineNumber));
    rows := rows + Numbered(cf.linesAfter, lineNumber);
    out := out + after;
    assert rows == FrameRows(cf);
  }

  /** The rendering numbers every line consecutively from `firstLineNumber`:
      the i-th context line before the target shows `firstLineNumber + i`,
      the target shows `firstLineNumber + |linesBefore|`, and the j-th line
      after it the next numbers; the marker line, when present, sits right
      below the target. */
  lemma PrettyCodeFrameNumbering(cf: CodeFrame)
    ensures var out := FrameRows(cf);
      var b := |cf.linesBefore|;
      var m := if cf.columnNumber.Some? then 1 else 0;
      && |out| == 2 + b + m + |cf.linesAfter|
      && out[0] == Header
      && (forall i :: 0 <= i < b ==> out[1 + i] == Context(cf.firstLineNumber + i, cf.linesBefore[i]))
      && out[1 + b] == Target(cf.firstLineNumber + b, cf.relevantLine)
      && (cf.columnNumber.Some? ==> out[2 + b] == Marker(cf.columnNumber.value))
      && (forall j :: 0 <= j < |cf.linesAfter| ==>
            out[2 + b + m + j] == Context(cf.firstLineNumber + b + 1 + j, cf.linesAfter[j]))
  {
  }

  /** The marker's `^` stands in the same text column as the `column`-th
      character of the target line, as long as the line number has three
      digits: both have an 8-character lead. */
  lemma {:induction false} MarkerUnderColumn(number: nat, line: string, column: int)
    requires number < 1000 && 1 <= column <= |line|
    ensures var shown := RelevantLine(number, Some(line));
      var marker := ColumnMarker(column);
      && column + 7 < |shown| && shown[column + 7] == line[column - 1]
      && marker[column + 7] == '^'
  {
    LineNumberTo3CharDigits(number);
    var lead := "> " + LineNumberTo3Char(number) + " | ";
    assert |lead| == 8;
    assert RelevantLine(number, Some(line)) == lead + line + "\n";
  }

  /** A frame extracted around an existing line renders that line with its own
      number. */
  lemma RelevantLineNumbered(lines: seq<string>, n: int, col: Option<int>, k: int)
    requires 1 <= n <= |lines| && k >= 0
    requires col.Some? ==> col.value >= -8
    ensures var cf := CodeFrameOf(lines, n, col, k);
      PrettyCodeFrame(cf)[1 + |cf.linesBefore|] == RelevantLine(n, Some(lines[n - 1]))
  {
    CodeFrameAroundLine(lines, n, col, k);
    PrettyCodeFrameNumbering(CodeFrameOf(lines, n, col, k));
  }
}
