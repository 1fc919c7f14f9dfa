/** Lines of text, and `split_prose` of app/threads/pdf.py, over ASCII text. */
module Prose {
  import opened Characters

  /** The line boundaries of `str.splitlines`. */
  predicate IsBreak(c: char) {
    '\n' <= c <= '\r' || 28 as char <= c <= 30 as char
  }

  /** `str.splitlines`; `cur` is the line being read. */
  function LinesFrom(cur: string, s: string): seq<string>
    decreases |s|
  {
    if s == "" then (if cur == "" then [] else [cur])
    else if !IsBreak(s[0]) then LinesFrom(cur + [s[0]], s[1..])
    else [cur] + LinesFrom("", s[if s[0] == '\r' && |s| > 1 && s[1] == '\n' then 2 else 1..])
  }

  function Lines(s: string): seq<string> {
    LinesFrom("", s)
  }

  /** `"\n".join`. */
  function JoinLines(ls: seq<string>): string {
    if ls == [] then "" else if |ls| == 1 then ls[0] else ls[0] + "\n" + JoinLines(ls[1..])
  }

  predicate IsPipeLine(l: string) {
    "|" <= LStrip(l)
  }

  /** The lines before the first that starts with a pipe. */
  function ProseLines(ls: seq<string>): seq<string> {
    if ls == [] || IsPipeLine(ls[0]) then [] else [ls[0]] + ProseLines(ls[1..])
  }

  function ProseOf(text: string): string {
    Strip(JoinLines(ProseLines(Lines(text))))
  }

  lemma {:induction false} ProseLinesAt(ls: seq<string>, k: nat)
    requires k < |ls| && forall j :: 0 <= j < k ==> !IsPipeLine(ls[j])
    ensures IsPipeLine(ls[k]) ==> ProseLines(ls) == ls[..k]
    ensures !IsPipeLine(ls[k]) && k == |ls| - 1 ==> ProseLines(ls) == ls
    decreases k
  {
    if k > 0 {
      ProseLinesAt(ls[1..], k - 1);
      assert ls == [ls[0]] + ls[1..] && ls[..k] == [ls[0]] + ls[1..][..k - 1];
    }
  }

  /** `split_prose`. */
  method SplitProse(text: string) returns (prose: string)
    ensures prose == ProseOf(text)
  {
    var lines := Lines(text);
    var kept := [];
    var k := 0;
    while k < |lines|
      invariant k <= |lines| && kept == lines[..k] && forall j :: 0 <= j < k ==> !IsPipeLine(lines[j])
    {
      if IsPipeLine(lines[k]) {
        ProseLinesAt(lines, k);
        break;
      }
      kept := kept + [lines[k]];
      k := k + 1;
    }
    if k == |lines| && k > 0 {
      ProseLinesAt(lines, k - 1);
      assert lines[..k] == lines;
    }
    prose := Strip(JoinLines(kept));
  }

  // ---- Text without pipe lines ----

  /**
   * Reading on from here, every line boundary is a newline and no line starts with a pipe; `atStart` says that
   * nothing but spaces has been read of the current line.
   */
  predicate PipeFree(atStart: bool, s: string)
    decreases |s|
  {
    if s == "" then true
    else if s[0] == '\n' then PipeFree(true, s[1..])
    else if IsSpace(s[0]) then !IsBreak(s[0]) && PipeFree(atStart, s[1..])
    else !(atStart && s[0] == '|') && PipeFree(false, s[1..])
  }

  predicate BreakFree(l: string) {
    forall k :: 0 <= k < |l| ==> !IsBreak(l[k])
  }

  lemma {:induction false} LinePipeFree(atStart: bool, l: string, rest: string)
    requires BreakFree(l) && (atStart ==> !IsPipeLine(l)) && (rest == "" || (rest[0] == '\n' && PipeFree(true, rest[1..])))
    ensures PipeFree(atStart, l + rest)
    decreases |l|
  {
    if l == "" {
      assert l + rest == rest;
    } else {
      assert (l + rest)[1..] == l[1..] + rest;
      assert atStart && l[0] == '|' ==> IsPipeLine(l);
      LinePipeFree(atStart && IsSpace(l[0]), l[1..], rest);
    }
  }

  /** Joining lines that do not start with a pipe. */
  lemma {:induction false} JoinedPipeFree(ls: seq<string>)
    requires forall k :: 0 <= k < |ls| ==> BreakFree(ls[k]) && !IsPipeLine(ls[k])
    ensures PipeFree(true, JoinLines(ls))
  {
    if |ls| == 1 {
      LinePipeFree(true, ls[0], "");
      assert ls[0] + "" == ls[0];
    } else if ls != [] {
      JoinedPipeFree(ls[1..]);
      var rest := "\n" + JoinLines(ls[1..]);
      LinePipeFree(true, ls[0], rest);
      assert ls[0] + rest == JoinLines(ls);
    }
  }

  lemma {:induction false} LinesBreakFree(cur: string, s: string)
    requires BreakFree(cur)
    ensures forall k :: 0 <= k < |LinesFrom(cur, s)| ==> BreakFree(LinesFrom(cur, s)[k])
    decreases |s|
  {
    if s != "" {
      if IsBreak(s[0]) {
        LinesBreakFree("", s[if s[0] == '\r' && |s| > 1 && s[1] == '\n' then 2 else 1..]);
      } else {
        LinesBreakFree(cur + [s[0]], s[1..]);
      }
    }
  }

  predicate AllSpace(s: string) {
    LStrip(s) == ""
  }

  lemma {:induction false} LStripAppend(s: string, c: char)
    ensures LStrip(s + [c]) == if AllSpace(s) then (if IsSpace(c) then "" else [c]) else LStrip(s) + [c]
  {
    if s == "" {
      assert s + [c] == [c];
    } else if IsSpace(s[0]) {
      assert (s + [c])[1..] == s[1..] + [c];
      LStripAppend(s[1..], c);
    }
  }

  /** The lines of pipe-free text do not start with a pipe. */
  lemma {:induction false} PipeFreeLines(cur: string, s: string)
    requires !IsPipeLine(cur) && PipeFree(AllSpace(cur), s)
    ensures forall k :: 0 <= k < |LinesFrom(cur, s)| ==> !IsPipeLine(LinesFrom(cur, s)[k])
    decreases |s|
  {
    if s != "" {
      if s[0] == '\n' {
        PipeFreeLines("", s[1..]);
      } else {
        LStripAppend(cur, s[0]);
        PipeFreeLines(cur + [s[0]], s[1..]);
      }
    }
  }

  lemma {:induction false} JoinSplitLines(atStart: bool, cur: string, s: string)
    requires PipeFree(atStart, s) && (s != "" ==> s[|s| - 1] != '\n')
    ensures JoinLines(LinesFrom(cur, s)) == cur + s
    ensures cur + s != "" ==> LinesFrom(cur, s) != []
    decreases |s|
  {
    if s == "" {
      assert cur + s == cur;
    } else if s[0] == '\n' {
      JoinSplitLines(true, "", s[1..]);
      assert "" + s[1..] == s[1..];
      assert cur + "\n" + s[1..] == cur + s;
    } else {
      JoinSplitLines(if IsSpace(s[0]) then atStart else false, cur + [s[0]], s[1..]);
      assert cur + [s[0]] + s[1..] == cur + s;
    }
  }

  /** A newline after a text that does not end in one starts a new line. */
  lemma {:induction false} LinesAppend(atStart: bool, cur: string, a: string, b: string)
    requires PipeFree(atStart, a) && cur + a != "" && (a != "" ==> a[|a| - 1] != '\n')
    ensures LinesFrom(cur, a + "\n" + b) == LinesFrom(cur, a) + LinesFrom("", b)
    decreases |a|
  {
    if a == "" {
      assert a + "\n" + b == "\n" + b;
      assert ("\n" + b)[1..] == b;
      assert cur != "";
    } else {
      assert (a + "\n" + b)[1..] == a[1..] + "\n" + b;
      if a[0] == '\n' {
        LinesAppend(true, "", a[1..], b);
      } else {
        LinesAppend(if IsSpace(a[0]) then atStart else false, cur + [a[0]], a[1..], b);
      }
    }
  }

  // ---- Stripped text ----

  predicate Trim(s: string) {
    s == "" || (!IsSpace(s[0]) && !IsSpace(s[|s| - 1]))
  }

  lemma {:induction false} RStripEnds(s: string)
    ensures RStrip(s) <= s && (RStrip(s) != "" ==> !IsSpace(RStrip(s)[|RStrip(s)| - 1]))
    decreases |s|
  {
    if s != "" && IsSpace(s[|s| - 1]) {
      RStripEnds(s[..|s| - 1]);
    }
  }

  lemma {:induction false} LStripStart(s: string)
    ensures LStrip(s) != "" ==> !IsSpace(LStrip(s)[0])
  {
    if s != "" && IsSpace(s[0]) {
      LStripStart(s[1..]);
    }
  }

  lemma StripTrims(s: string)
    ensures Trim(Strip(s)) && (Trim(s) ==> Strip(s) == s)
  {
    LStripStart(s);
    RStripEnds(LStrip(s));
  }

  /** Text without pipe lines in front of a table is what `split_prose` returns. */
  lemma SplitBeforeTable(prose: string, table: string)
    requires prose != "" && PipeFree(true, prose) && Trim(prose) && "|" <= table
    ensures ProseOf(prose + "\n\n" + table) == prose
  {
    assert prose + "\n\n" + table == prose + "\n" + ("\n" + table);
    LinesAppend(true, "", prose, "\n" + table);
    var before, after := Lines(prose), LinesFrom("", table);
    assert ("\n" + table)[1..] == table;
    var ls := before + [""] + after;
    assert Lines(prose + "\n\n" + table) == ls;
    PipeFreeLines("", prose);
    TableLine("", table);
    ProseLinesAt(ls, |before| + 1);
    assert ls[..|before| + 1] == before + [""];
    JoinSplitLines(true, "", prose);
    JoinEmptyLine(before);
    assert "" + prose == prose;
    StripNewline(prose);
  }

  lemma StripNewline(prose: string)
    requires prose != "" && Trim(prose)
    ensures Strip(prose + "\n") == prose
  {
    var s := prose + "\n";
    assert s[..|s| - 1] == prose && LStrip(s) == s;
    assert RStrip(s) == RStrip(prose) == prose;
  }

  lemma {:induction false} JoinEmptyLine(ls: seq<string>)
    requires ls != []
    ensures JoinLines(ls + [""]) == JoinLines(ls) + "\n"
  {
    if |ls| == 1 {
      assert (ls + [""])[1..] == [""];
    } else {
      assert (ls + [""])[1..] == ls[1..] + [""];
      JoinEmptyLine(ls[1..]);
    }
  }

  lemma {:induction false} TableLine(cur: string, table: string)
    requires "|" <= cur + table
    ensures LinesFrom(cur, table) != [] && IsPipeLine(LinesFrom(cur, table)[0])
    decreases |table|
  {
    if table == "" {
      assert cur + table == cur;
    } else if !IsBreak(table[0]) {
      assert cur + [table[0]] + table[1..] == cur + table;
      TableLine(cur + [table[0]], table[1..]);
    } else {
      assert (cur + table)[0] == '|';
    }
  }

  lemma SplitWithoutTable(prose: string)
    requires prose != "" && PipeFree(true, prose) && Trim(prose)
    ensures ProseOf(prose) == prose
  {
    PipeFreeLines("", prose);
    JoinSplitLines(true, "", prose);
    assert "" + prose == prose;
    var ls := Lines(prose);
    ProseLinesAt(ls, |ls| - 1);
    StripTrims(prose);
  }
}
