/** The answer text and the result table: app/chat/answerer.py, over ASCII text and the rupee sign. */
module Answerer {
  import opened Characters
  import opened Numerals
  import opened Words
  import opened Prose
  import opened Regrouping
  import opened ResultCaching
  import opened Totals

  const NO_DATA_SENTENCE: string := "I couldn't find any " + "matching data for " + "that question."

  // ---- Row dumps ----

  /** How many leading characters are spaces. */
  function Spaces(s: string): (n: nat)
    ensures n <= |s| && (n < |s| ==> !IsSpace(s[n]))
  {
    if s != "" && IsSpace(s[0]) then 1 + Spaces(s[1..]) else 0
  }

  /** `\[\s*\{` at the front: its length, or 0. */
  function OpensDump(s: string): (n: nat)
    ensures n <= |s|
  {
    if s == "" || s[0] != '[' then 0 else
      var k := 1 + Spaces(s[1..]);
      if k < |s| && s[k] == '{' then k + 1 else 0
  }

  /** `.*?\}\s*\]` at the front: the length of the shortest such prefix, or 0. */
  function ClosesDump(s: string): (n: nat)
    ensures n <= |s|
  {
    if s == "" then 0 else
      var k := 1 + Spaces(s[1..]);
      if s[0] == '}' && k < |s| && s[k] == ']' then k + 1
      else var n := ClosesDump(s[1..]); if n == 0 then 0 else n + 1
  }

  function DumpLength(s: string): (n: nat)
    ensures n <= |s|
  {
    var k := OpensDump(s);
    if k == 0 then 0 else
      var n := ClosesDump(s[k..]);
      if n == 0 then 0 else k + n
  }

  function RemoveDumps(s: string): string
    decreases |s|
  {
    if s == "" then ""
    else if DumpLength(s) > 0 then RemoveDumps(s[DumpLength(s)..])
    else [s[0]] + RemoveDumps(s[1..])
  }

  /** The text cut at the first `[{`, if no `}]` follows that. */
  function CutTail(s: string): string {
    if s == "" then ""
    else if "[{" <= s then (if Contains(s, "}]") then s else "")
    else [s[0]] + CutTail(s[1..])
  }

  lemma DumpAt(open: string, rest: string)
    requires OpensDump(open + rest) == |open| > 0 && ClosesDump(rest) > 0
    ensures DumpLength(open + rest) == |open| + ClosesDump(rest)
  {
    assert (open + rest)[|open|..] == rest;
  }

  lemma NoDumpInside()
    ensures RemoveDumps("{}]") == "{}]"
  {
    assert RemoveDumps("]") == "]" && RemoveDumps("}]") == "}]";
  }

  lemma InnerDump()
    ensures DumpLength("[{}]{}]") == 4
  {
    assert Spaces("]{}]") == 0 && ClosesDump("}]{}]") == 2;
    assert Spaces("{}]{}]") == 0 && "[{}]{}]"[1..] == "{}]{}]" && OpensDump("[{" + "}]{}]") == 2;
    DumpAt("[{", "}]{}]");
  }

  lemma Removed(s: string, t: string)
    requires DumpLength(s) > 0 && s[DumpLength(s)..] == t
    ensures RemoveDumps(s) == RemoveDumps(t)
  {
  }

  lemma Skipped(s: string)
    requires s != "" && DumpLength(s) == 0
    ensures RemoveDumps(s) == [s[0]] + RemoveDumps(s[1..])
  {
  }

  lemma SmallDump()
    ensures DumpLength("[{}]") == 4
  {
    assert Spaces("{}]") == 0 && "[{}]"[1..] == "{}]" && OpensDump("[{" + "}]") == 2 && Spaces("]") == 0 && ClosesDump("}]") == 2;
    DumpAt("[{", "}]");
  }

  lemma RemovedInner(inner: string)
    requires inner == "[{}]{}]"
    ensures RemoveDumps(inner) == "{}]"
  {
    InnerDump();
    NoDumpInside();
    assert inner[4..] == "{}]";
    Removed(inner, inner[4..]);
  }

  lemma RemovedOuter(whole: string, inner: string)
    requires whole == "[" + inner && inner == "[{}]{}]"
    ensures RemoveDumps(whole) == "[" + "{}]"
  {
    RemovedInner(inner);
    OuterSkipped(inner);
  }

  /** One pass does not remove every span: removing one can make another. */
  lemma RemovedSpanMakesAnother()
    ensures RemoveDumps("[[{}]{}]") == "[{}]" && DumpLength("[{}]") == 4
  {
    SmallDump();
    RemovedOuter("[[{}]{}]", "[{}]{}]");
  }

  lemma OuterSkipped(inner: string)
    requires "[" <= inner
    ensures RemoveDumps("[" + inner) == "[" + RemoveDumps(inner)
  {
    var whole := "[" + inner;
    assert whole[1..] == inner && Spaces(inner) == 0;
    assert OpensDump(whole) == 0;
    Skipped(whole);
  }

  // ---- Data lines ----

  /** `\S\s{3,}\S` somewhere in the text. */
  predicate HasAlignedColumns(s: string) {
    s != "" && ((!IsSpace(s[0]) && 3 <= Spaces(s[1..]) < |s| - 1) || HasAlignedColumns(s[1..]))
  }

  /** `[\d,]+(?:\.\d+)?` on all of the text. */
  predicate IsNumberText(s: string) {
    var n := RunLength(s);
    n > 0 && (n == |s| || (s[n] == '.' && n + 1 < |s| && AllDigits(s[n + 1..])))
  }

  /** `₹?[\d,]+(?:\.\d+)?$` somewhere in the text; the search makes the sign in front irrelevant. */
  predicate EndsInNumber(s: string) {
    IsNumberText(s) || (s != "" && EndsInNumber(s[1..]))
  }

  predicate IsDataLine(line: string) {
    var stripped := Strip(line);
    stripped != "" && ("|" <= stripped || HasAlignedColumns(stripped) || (EndsInNumber(stripped) && |WordsOf(stripped)| <= 5))
  }

  function ProseOnly(ls: seq<string>): seq<string> {
    if ls == [] then [] else (if IsDataLine(ls[0]) then [] else [ls[0]]) + ProseOnly(ls[1..])
  }

  // ---- Whitespace ----

  predicate BlanksThenNewline(s: string) {
    s != "" && (s[0] == '\n' || ((s[0] == ' ' || s[0] == '\t') && BlanksThenNewline(s[1..])))
  }

  /** `[ \t]+\n` becomes a newline. */
  function TrimLineEnds(s: string): string {
    if s == "" then ""
    else if s[0] != '\n' && BlanksThenNewline(s) then TrimLineEnds(s[1..])
    else [s[0]] + TrimLineEnds(s[1..])
  }

  /** `\n{3,}` becomes two newlines. */
  function CapNewlines(s: string): string {
    if s == "" then "" else if "\n\n\n" <= s then CapNewlines(s[1..]) else [s[0]] + CapNewlines(s[1..])
  }

  /** ` {2,}` becomes one space. */
  function SquashSpaces(s: string): string {
    if s == "" then "" else if "  " <= s then SquashSpaces(s[1..]) else [s[0]] + SquashSpaces(s[1..])
  }

  function Scrubbed(text: string): string {
    Strip(SquashSpaces(CapNewlines(TrimLineEnds(JoinLines(ProseOnly(Lines(CutTail(RemoveDumps(text)))))))))
  }

  method ScrubRawRowDumps(text: string) returns (r: string)
    ensures r == Scrubbed(text)
  {
    var cleaned := RemoveDumps(text);
    cleaned := CutTail(cleaned);
    cleaned := JoinLines(ProseOnly(Lines(cleaned)));
    cleaned := TrimLineEnds(cleaned);
    cleaned := CapNewlines(cleaned);
    cleaned := SquashSpaces(cleaned);
    return Strip(cleaned);
  }

  // ---- The answer ----

  function LeadIn(rowCount: nat): string {
    if rowCount == 0 then NO_DATA_SENTENCE
    else if rowCount == 1 then "Here's what I found:"
    else "I found " + Decimal(rowCount) + " matching rows."
  }

  function Concat(chunks: seq<string>): string {
    if chunks == [] then "" else Concat(chunks[..|chunks| - 1]) + chunks[|chunks| - 1]
  }

  /** The answer for what the model wrote and the number of rows. */
  function Answer(written: string, rowCount: nat): string {
    if rowCount == 0 then NO_DATA_SENTENCE else
      var answer := RegroupWesternNumbers(Scrubbed(written));
      if answer == "" then LeadIn(rowCount) else answer
  }

  /** `stream_answer_text` on the chunks the model streams; without rows the model is not asked. */
  method StreamAnswerText(chunks: seq<string>, rowCount: nat) returns (text: string)
    ensures text == Answer(Concat(chunks), rowCount)
  {
    if rowCount == 0 {
      return NO_DATA_SENTENCE;
    }
    var buffered := "";
    var k := 0;
    while k < |chunks|
      invariant k <= |chunks| && buffered == Concat(chunks[..k])
    {
      assert chunks[..k + 1][..k] == chunks[..k];
      if chunks[k] != "" {
        buffered := buffered + chunks[k];
      }
      k := k + 1;
    }
    assert chunks[..k] == chunks;
    var answer := ScrubRawRowDumps(buffered);
    answer := RegroupWesternNumbers(answer);
    return if answer == "" then LeadIn(rowCount) else answer;
  }

  // ---- The table ----

  const MONEY_HINTS: seq<string> :=
    ["revenue", "sales", "value", "amount", "amt", "gross", "net", "mrp", "price", "spend", "purchase", "outstanding", "turnover"]

  const NON_MONEY_HINTS: seq<string> :=
    ["qty", "quantity", "count", "outlets", "perc", "percent", "pct", "days", "number", "distance"]

  predicate IsMoneyColumn(name: string) {
    !HasAnyHint(name, NON_MONEY_HINTS) && HasAnyHint(name, MONEY_HINTS)
  }

  /** How Python shows a value other than a string, and `format_rupees`. */
  datatype Printer = Printer(str: CellValue -> string, rupees: CellValue -> string)

  function Escape(s: string): string {
    if s == "" then "" else (if s[0] == '|' then "\\|" else if s[0] == '\n' then " " else [s[0]]) + Escape(s[1..])
  }

  function Cell(p: Printer, column: string, row: RowDict): string {
    var v := if column in row then row[column] else NoneCell;
    if v.NoneCell? then ""
    else if IsMoneyColumn(column) && IsNumeric(v) then p.rupees(v)
    else Escape(if v.StrCell? then v.s else p.str(v))
  }

  function JoinPipes(cells: seq<string>): string {
    if cells == [] then "" else if |cells| == 1 then cells[0] else cells[0] + " | " + JoinPipes(cells[1..])
  }

  function Line(cells: seq<string>): string {
    "| " + JoinPipes(cells) + " |"
  }

  function Cells(p: Printer, columns: seq<string>, row: RowDict): seq<string> {
    if columns == [] then [] else [Cell(p, columns[0], row)] + Cells(p, columns[1..], row)
  }

  function Header(columns: seq<string>): seq<string> {
    if columns == [] then [] else [Escape(columns[0])] + Header(columns[1..])
  }

  function Rule(columns: seq<string>): seq<string> {
    if columns == [] then [] else ["---"] + Rule(columns[1..])
  }

  /** The header, the rule, and a line for each row, in order. */
  function TableLines(p: Printer, columns: seq<string>, rows: seq<RowDict>): seq<string> {
    if rows == [] then [Line(Header(columns)), Line(Rule(columns))] else
      TableLines(p, columns, rows[..|rows| - 1]) + [Line(Cells(p, columns, rows[|rows| - 1]))]
  }

  function Table(p: Printer, columns: seq<string>, rows: seq<RowDict>): string {
    if rows == [] || columns == [] || (|rows| == 1 && |columns| == 1) then "" else JoinLines(TableLines(p, columns, JsonableRows(rows)))
  }

  method RenderMarkdownTable(p: Printer, columns: seq<string>, rows: seq<RowDict>) returns (table: string)
    ensures table == Table(p, columns, rows)
  {
    if rows == [] || columns == [] || (|rows| == 1 && |columns| == 1) {
      return "";
    }
    var lines := CollectLines(p, columns, JsonableRows(rows));
    return JoinLines(lines);
  }

  method CollectLines(p: Printer, columns: seq<string>, rows: seq<RowDict>) returns (lines: seq<string>)
    ensures lines == TableLines(p, columns, rows)
  {
    lines := [Line(Header(columns)), Line(Rule(columns))];
    var k := 0;
    while k < |rows|
      invariant k <= |rows| && lines == TableLines(p, columns, rows[..k])
    {
      assert rows[..k + 1][..k] == rows[..k];
      lines := lines + [Line(Cells(p, columns, rows[k]))];
      k := k + 1;
    }
    assert rows[..k] == rows;
  }

  /** A turn served from the result cache shows the same table as the turn that filled it. */
  lemma CachedTableSame(p: Printer, columns: seq<string>, rows: seq<RowDict>)
    ensures Table(p, columns, JsonableRows(rows)) == Table(p, columns, rows)
  {
    JsonableIdempotent(rows);
  }

  // ---- Every row is shown, on its own line ----

  predicate NoNewline(s: string) {
    '\n' !in s
  }

  lemma {:induction false} EscapeNoNewline(s: string)
    ensures NoNewline(Escape(s))
  {
    if s != "" {
      EscapeNoNewline(s[1..]);
    }
  }

  lemma {:induction false} CellsNoNewline(p: Printer, columns: seq<string>, row: RowDict)
    requires forall v :: NoNewline(p.rupees(v))
    ensures NoNewline(JoinPipes(Cells(p, columns, row))) && NoNewline(JoinPipes(Header(columns))) && NoNewline(JoinPipes(Rule(columns)))
  {
    if columns != [] {
      CellsNoNewline(p, columns[1..], row);
      EscapeNoNewline(columns[0]);
      var v := if columns[0] in row then row[columns[0]] else NoneCell;
      EscapeNoNewline(if v.StrCell? then v.s else p.str(v));
    }
  }

  lemma {:induction false} TableLinesAt(p: Printer, columns: seq<string>, rows: seq<RowDict>, k: nat)
    requires k < |rows| + 2 && forall v :: NoNewline(p.rupees(v))
    ensures |TableLines(p, columns, rows)| == |rows| + 2
    ensures var l := TableLines(p, columns, rows)[k];
      NoNewline(l) && "|" <= l && (k >= 2 ==> l == Line(Cells(p, columns, rows[k - 2])))
  {
    CellsNoNewline(p, columns, if rows == [] then map[] else rows[|rows| - 1]);
    if rows != [] {
      TableLinesAt(p, columns, rows[..|rows| - 1], if k <= |rows| then k else 0);
    }
  }

  /** The header names the columns, and every line has one cell for each column, in the same order. */
  lemma {:induction false} CellsAligned(p: Printer, columns: seq<string>, row: RowDict)
    ensures Cells(p, columns, row) == seq(|columns|, k requires 0 <= k < |columns| => Cell(p, columns[k], row))
    ensures Header(columns) == seq(|columns|, k requires 0 <= k < |columns| => Escape(columns[k]))
    ensures Rule(columns) == seq(|columns|, _ => "---")
  {
    if columns != [] {
      CellsAligned(p, columns[1..], row);
    }
  }

  predicate IsNewline(c: char) {
    c == '\n'
  }

  lemma {:induction false} SplitJoinedLines(ls: seq<string>)
    requires forall k :: 0 <= k < |ls| ==> NoNewline(ls[k]) && ls[k] != ""
    ensures SplitFrom(IsNewline, "", JoinLines(ls)) == ls
  {
    if ls != [] {
      SplitWord(IsNewline, "", ls[0]);
      assert "" + ls[0] == ls[0];
      if |ls| > 1 {
        SplitJoinedLines(ls[1..]);
        SplitAt(IsNewline, "", ls[0], '\n', JoinLines(ls[1..]));
        assert ls == [ls[0]] + ls[1..];
      }
    }
  }

  /** Cut at its newlines, the table is the header, the rule and one line for every row, whatever the cells contain; the cells of
      every line are in the order of the header. */
  lemma TableShowsEveryRow(p: Printer, columns: seq<string>, rows: seq<RowDict>)
    requires forall v :: NoNewline(p.rupees(v))
    requires Table(p, columns, rows) != ""
    ensures var ls := SplitFrom(IsNewline, "", Table(p, columns, rows));
      && |ls| == |rows| + 2
      && ls[0] == Line(seq(|columns|, k requires 0 <= k < |columns| => Escape(columns[k])))
      && ls[1] == Line(seq(|columns|, _ => "---"))
      && forall i :: 0 <= i < |rows| ==>
           ls[i + 2] == Line(seq(|columns|, k requires 0 <= k < |columns| => Cell(p, columns[k], JsonableRow(rows[i]))))
  {
    var converted := JsonableRows(rows);
    var ls := TableLines(p, columns, converted);
    TableLinesAt(p, columns, converted, 0);
    forall k | 0 <= k < |ls| ensures NoNewline(ls[k]) && ls[k] != "" && (k >= 2 ==> ls[k] == Line(Cells(p, columns, converted[k - 2]))) {
      TableLinesAt(p, columns, converted, k);
    }
    SplitJoinedLines(ls);
    HeadLines(p, columns, converted);
    forall i | 0 <= i < |rows|
      ensures ls[i + 2] == Line(seq(|columns|, k requires 0 <= k < |columns| => Cell(p, columns[k], JsonableRow(rows[i]))))
    {
      CellsAligned(p, columns, converted[i]);
    }
    CellsAligned(p, columns, map[]);
  }

  lemma {:induction false} HeadLines(p: Printer, columns: seq<string>, rows: seq<RowDict>)
    ensures |TableLines(p, columns, rows)| == |rows| + 2
    ensures TableLines(p, columns, rows)[0] == Line(Header(columns)) && TableLines(p, columns, rows)[1] == Line(Rule(columns))
  {
    if rows != [] {
      HeadLines(p, columns, rows[..|rows| - 1]);
    }
  }

  // ---- No line of the answer starts with a pipe ----

  lemma StripStart(l: string)
    requires IsPipeLine(l)
    ensures "|" <= Strip(l)
  {
    RStripStart(LStrip(l));
  }

  lemma {:induction false} RStripStart(s: string)
    requires s != "" && !IsSpace(s[0])
    ensures RStrip(s) != "" && RStrip(s)[0] == s[0]
    decreases |s|
  {
    if IsSpace(s[|s| - 1]) {
      RStripStart(s[..|s| - 1]);
    }
  }

  lemma {:induction false} ProseOnlyLines(ls: seq<string>)
    requires forall k :: 0 <= k < |ls| ==> BreakFree(ls[k])
    ensures forall k :: 0 <= k < |ProseOnly(ls)| ==> BreakFree(ProseOnly(ls)[k]) && !IsPipeLine(ProseOnly(ls)[k])
  {
    if ls != [] {
      ProseOnlyLines(ls[1..]);
      if IsPipeLine(ls[0]) {
        StripStart(ls[0]);
      }
    }
  }

  lemma {:induction false} TrimPipeFree(atStart: bool, s: string)
    requires PipeFree(atStart, s)
    ensures PipeFree(atStart, TrimLineEnds(s))
    decreases |s|
  {
    if s != "" {
      TrimPipeFree(s[0] == '\n' || (IsSpace(s[0]) && atStart), s[1..]);
    }
  }

  lemma {:induction false} CapPipeFree(atStart: bool, s: string)
    requires PipeFree(atStart, s)
    ensures PipeFree(atStart, CapNewlines(s))
    decreases |s|
  {
    if s != "" {
      if "\n\n\n" <= s {
        assert s[1..][0] == s[1] == '\n';
        CapPipeFree(atStart, s[1..]);
      } else {
        CapPipeFree(s[0] == '\n' || (IsSpace(s[0]) && atStart), s[1..]);
      }
    }
  }

  lemma {:induction false} SquashPipeFree(atStart: bool, s: string)
    requires PipeFree(atStart, s)
    ensures PipeFree(atStart, SquashSpaces(s))
    decreases |s|
  {
    if s != "" {
      SquashPipeFree(s[0] == '\n' || (IsSpace(s[0]) && atStart), s[1..]);
    }
  }

  lemma {:induction false} LStripPipeFree(s: string)
    requires PipeFree(true, s)
    ensures PipeFree(true, LStrip(s))
  {
    if s != "" && IsSpace(s[0]) {
      LStripPipeFree(s[1..]);
    }
  }

  lemma {:induction false} PrefixPipeFree(atStart: bool, s: string, n: nat)
    requires PipeFree(atStart, s) && n <= |s|
    ensures PipeFree(atStart, s[..n])
    decreases |s|
  {
    if n > 0 {
      assert s[..n][1..] == s[1..][..n - 1];
      PrefixPipeFree(s[0] == '\n' || (IsSpace(s[0]) && atStart), s[1..], n - 1);
    }
  }

  lemma StripPipeFree(s: string)
    requires PipeFree(true, s)
    ensures PipeFree(true, Strip(s)) && Trim(Strip(s))
  {
    LStripPipeFree(s);
    RStripEnds(LStrip(s));
    PrefixPipeFree(true, LStrip(s), |Strip(s)|);
    assert LStrip(s)[..|Strip(s)|] == Strip(s);
    StripTrims(s);
  }

  lemma ScrubbedPipeFree(text: string)
    ensures PipeFree(true, Scrubbed(text)) && Trim(Scrubbed(text))
  {
    var cut := CutTail(RemoveDumps(text));
    LinesBreakFree("", cut);
    ProseOnlyLines(Lines(cut));
    var joined := JoinLines(ProseOnly(Lines(cut)));
    JoinedPipeFree(ProseOnly(Lines(cut)));
    TrimPipeFree(true, joined);
    CapPipeFree(true, TrimLineEnds(joined));
    SquashPipeFree(true, CapNewlines(TrimLineEnds(joined)));
    StripPipeFree(SquashSpaces(CapNewlines(TrimLineEnds(joined))));
  }

  lemma {:induction false} RunPipeFree(atStart: bool, r: string, rest: string)
    requires AllInRun(r) && r != ""
    ensures PipeFree(atStart, r + rest) <==> PipeFree(false, rest)
    decreases |r|
  {
    assert (r + rest)[1..] == r[1..] + rest;
    assert InRun(r[0]);
    if |r| > 1 {
      RunPipeFree(false, r[1..], rest);
    } else {
      assert r[1..] + rest == rest;
    }
  }

  /** Rewriting runs of digits and commas as such runs changes neither pipe lines nor the ends. */
  lemma {:induction false} MapRunsPipeFree(rewrite: string -> string, atStart: bool, s: string)
    requires forall r :: AllInRun(r) && r != "" ==> AllInRun(rewrite(r)) && rewrite(r) != ""
    requires PipeFree(atStart, s)
    ensures PipeFree(atStart, MapRuns(rewrite, s))
    decreases |s|
  {
    if s != "" {
      if !InRun(s[0]) {
        MapRunsPipeFree(rewrite, s[0] == '\n' || (IsSpace(s[0]) && atStart), s[1..]);
      } else {
        var n := RunLength(s);
        RunLengthEnds(s);
        assert s == s[..n] + s[n..];
        RunPipeFree(atStart, s[..n], s[n..]);
        MapRunsPipeFree(rewrite, false, s[n..]);
        RunPipeFree(atStart, rewrite(s[..n]), MapRuns(rewrite, s[n..]));
      }
    }
  }

  /** Both are empty, or their ends are spaces alike. */
  predicate EndsAlike(t: string, s: string) {
    if s == "" then t == "" else t != "" && IsSpace(t[0]) == IsSpace(s[0]) && IsSpace(t[|t| - 1]) == IsSpace(s[|s| - 1])
  }

  lemma EndsAlikeAppend(r: string, a: string, t: string, b: string)
    requires a != "" && EndsAlike(r, a) && EndsAlike(t, b)
    ensures EndsAlike(r + t, a + b)
  {
    if b == "" {
      assert r + t == r && a + b == a;
    }
  }

  lemma RunsStep(rewrite: string -> string, s: string)
    requires s != ""
    ensures var n := if InRun(s[0]) then RunLength(s) else 1;
      && 0 < n && s == s[..n] + s[n..]
      && MapRuns(rewrite, s) == (if InRun(s[0]) then rewrite(s[..n]) else s[..n]) + MapRuns(rewrite, s[n..])
  {
  }

  lemma {:induction false} MapRunsTrim(rewrite: string -> string, s: string)
    requires forall r :: AllInRun(r) && r != "" ==> AllInRun(rewrite(r)) && rewrite(r) != ""
    ensures EndsAlike(MapRuns(rewrite, s), s)
    decreases |s|
  {
    if s != "" {
      RunsStep(rewrite, s);
      var n := if InRun(s[0]) then RunLength(s) else 1;
      var a := s[..n];
      var r := if InRun(s[0]) then rewrite(a) else a;
      if InRun(s[0]) {
        RunLengthEnds(s);
        assert InRun(r[0]) && InRun(r[|r| - 1]) && InRun(a[n - 1]);
      }
      MapRunsTrim(rewrite, s[n..]);
      EndsAlikeAppend(r, a, MapRuns(rewrite, s[n..]), s[n..]);
    }
  }

  lemma RegroupPipeFree(s: string)
    requires PipeFree(true, s) && Trim(s)
    ensures PipeFree(true, RegroupWesternNumbers(s)) && Trim(RegroupWesternNumbers(s))
  {
    RegroupIsByRuns(s);
    RewriteRunNormalizes();
    MapRunsPipeFree(RewriteRun, true, s);
    MapRunsTrim(RewriteRun, s);
  }

  lemma {:induction false} DecimalIsDigits(n: nat)
    ensures Decimal(n) != "" && AllDigits(Decimal(n))
  {
    if n >= 10 {
      DecimalIsDigits(n / 10);
    }
  }

  lemma SentencePipeFree(l: string)
    requires l != "" && BreakFree(l) && !IsSpace(l[0]) && l[0] != '|' && !IsSpace(l[|l| - 1])
    ensures PipeFree(true, l) && Trim(l)
  {
    LinePipeFree(true, l, "");
    assert l + "" == l;
  }

  lemma FixedSentences()
    ensures var l := "Here's what I found:"; |l| == 20 && BreakFree(l) && l[0] == 'H' && l[19] == ':'
    ensures BreakFree("I found ") && BreakFree(" matching rows.")
  {
  }

  lemma NoDataSentence()
    ensures var l := NO_DATA_SENTENCE; l != "" && BreakFree(l) && l[0] == 'I' && l[|l| - 1] == '.'
  {
    assert BreakFree("I couldn't find any ") && BreakFree("matching data for ") && BreakFree("that question.");
  }

  lemma LeadInPipeFree(n: nat)
    ensures LeadIn(n) != "" && PipeFree(true, LeadIn(n)) && Trim(LeadIn(n))
  {
    FixedSentences();
    NoDataSentence();
    if n <= 1 {
      SentencePipeFree(LeadIn(n));
    } else {
      DecimalIsDigits(n);
      var a, d, b := "I found ", Decimal(n), " matching rows.";
      assert (a + d + b)[0] == 'I' && (a + d + b)[|a + d + b| - 1] == '.';
      SentencePipeFree(a + d + b);
    }
  }

  lemma AnswerPipeFree(written: string, rowCount: nat)
    ensures Answer(written, rowCount) != "" && PipeFree(true, Answer(written, rowCount)) && Trim(Answer(written, rowCount))
  {
    LeadInPipeFree(0);
    LeadInPipeFree(rowCount);
    ScrubbedPipeFree(written);
    RegroupPipeFree(Scrubbed(written));
  }

  lemma TableStart(p: Printer, columns: seq<string>, rows: seq<RowDict>)
    ensures Table(p, columns, rows) == "" || "|" <= Table(p, columns, rows)
  {
    if Table(p, columns, rows) != "" {
      FirstLine(p, columns, JsonableRows(rows));
    }
  }

  lemma {:induction false} FirstLine(p: Printer, columns: seq<string>, rows: seq<RowDict>)
    ensures |TableLines(p, columns, rows)| >= 2 && TableLines(p, columns, rows)[0] == Line(Header(columns))
  {
    if rows != [] {
      FirstLine(p, columns, rows[..|rows| - 1]);
    }
  }

  /** What the turn writes: the answer, then the table if there is one. */
  function FullText(p: Printer, written: string, columns: seq<string>, rows: seq<RowDict>): string {
    var table := Table(p, columns, rows);
    Answer(written, |rows|) + if table == "" then "" else "\n\n" + table
  }

  /** Splitting what a turn wrote gives back exactly its answer, whatever the model wrote and whatever the rows are. */
  lemma SplitRecoversAnswer(p: Printer, written: string, columns: seq<string>, rows: seq<RowDict>)
    ensures ProseOf(FullText(p, written, columns, rows)) == Answer(written, |rows|)
  {
    var answer, table := Answer(written, |rows|), Table(p, columns, rows);
    AnswerPipeFree(written, |rows|);
    TableStart(p, columns, rows);
    if table == "" {
      assert answer + "" == answer;
      SplitWithoutTable(answer);
    } else {
      assert answer + ("\n\n" + table) == answer + "\n\n" + table;
      SplitBeforeTable(answer, table);
    }
  }
}
