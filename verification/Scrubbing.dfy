/** What scrubbing keeps: `scrub_raw_row_dumps` of app/chat/answerer.py, over ASCII text. */
module Scrubbing {
  import opened Characters
  import opened Words
  import opened Prose
  import opened Regrouping
  import opened Relational
  import opened Answerer

  // ---- The stripped lines of a text ----

  /** A stripped line, unless nothing is left of it. */
  function Part(line: string): seq<string> {
    if RStrip(line) == "" then [] else [RStrip(line)]
  }

  /** The stripped lines that are not empty, in order; `cur` is what was read of the current line, without leading spaces. */
  function Parts(cur: string, s: string): seq<string>
    decreases |s|
  {
    if s == "" then Part(cur)
    else if s[0] == '\n' then Part(cur) + Parts("", s[1..])
    else if cur == "" && IsSpace(s[0]) then Parts("", s[1..])
    else Parts(cur + [s[0]], s[1..])
  }

  function PartsOfLines(ls: seq<string>): seq<string> {
    if ls == [] then [] else Part(LStrip(ls[0])) + PartsOfLines(ls[1..])
  }

  /** The line without leading spaces, given what was read of it. */
  function LineOf(cur: string, l: string): string {
    if cur == "" then LStrip(l) else cur + l
  }

  function ReadMore(cur: string, c: char): string {
    if cur == "" && IsSpace(c) then "" else cur + [c]
  }

  lemma LineOfMore(cur: string, l: string)
    requires l != ""
    ensures LineOf(ReadMore(cur, l[0]), l[1..]) == LineOf(cur, l)
  {
    assert l == [l[0]] + l[1..];
    if cur == "" {
      assert cur + [l[0]] == [l[0]];
    } else {
      assert cur + [l[0]] + l[1..] == cur + l;
    }
  }

  lemma {:induction false} PartsOfLine(cur: string, l: string, rest: string)
    requires NoNewline(l) && (rest == "" || rest[0] == '\n')
    ensures Parts(cur, l + rest) == Part(LineOf(cur, l)) + if rest == "" then [] else Parts("", rest[1..])
    decreases |l|
  {
    if l == "" {
      assert l + rest == rest && LineOf(cur, l) == cur;
      assert Part(cur) + [] == Part(cur);
    } else {
      assert (l + rest)[1..] == l[1..] + rest && (l + rest)[0] == l[0] && NoNewline(l[1..]);
      PartsOfLine(ReadMore(cur, l[0]), l[1..], rest);
      LineOfMore(cur, l);
    }
  }

  lemma {:induction false} PartsOfJoined(ls: seq<string>)
    requires forall k :: 0 <= k < |ls| ==> NoNewline(ls[k])
    ensures Parts("", JoinLines(ls)) == PartsOfLines(ls)
  {
    if |ls| == 1 {
      PartsOfLine("", ls[0], "");
      assert ls[0] + "" == ls[0];
    } else if ls != [] {
      PartsOfJoined(ls[1..]);
      var rest := "\n" + JoinLines(ls[1..]);
      PartsOfLine("", ls[0], rest);
      assert ls[0] + rest == JoinLines(ls) && rest[1..] == JoinLines(ls[1..]);
    }
  }

  // ---- Three passes that keep them ----

  lemma RStripSpace(s: string, c: char)
    requires IsSpace(c)
    ensures RStrip(s + [c]) == RStrip(s)
  {
    assert (s + [c])[..|s + [c]| - 1] == s;
  }

  lemma {:induction false} BlankBeforeNewline(cur: string, c: char, t: string)
    requires cur != "" && IsSpace(c) && BlanksThenNewline(t)
    ensures Parts(cur + [c], t) == Parts(cur, t)
    decreases |t|
  {
    RStripSpace(cur, c);
    if t[0] != '\n' {
      BlankBeforeNewline(cur + [c], t[0], t[1..]);
      BlankBeforeNewline(cur, t[0], t[1..]);
      BlankBeforeNewline(cur, c, t[1..]);
    }
  }

  lemma {:induction false} TrimKeepsParts(cur: string, s: string)
    ensures Parts(cur, TrimLineEnds(s)) == Parts(cur, s)
    decreases |s|
  {
    if s != "" {
      if s[0] != '\n' && BlanksThenNewline(s) {
        TrimKeepsParts(cur, s[1..]);
        if cur != "" {
          BlankBeforeNewline(cur, s[0], s[1..]);
        }
      } else {
        var t := TrimLineEnds(s[1..]);
        assert TrimLineEnds(s)[1..] == t;
        TrimKeepsParts(if s[0] == '\n' || (cur == "" && IsSpace(s[0])) then "" else cur + [s[0]], s[1..]);
      }
    }
  }

  lemma {:induction false} CapKeepsParts(cur: string, s: string)
    ensures Parts(cur, CapNewlines(s)) == Parts(cur, s)
    decreases |s|
  {
    if s != "" {
      if "\n\n\n" <= s {
        assert s[1..][0] == s[1] == '\n';
        CapKeepsParts(cur, s[1..]);
        assert Part("") == [];
        assert Parts("", s[1..]) == [] + Parts("", s[1..][1..]);
      } else {
        var t := CapNewlines(s[1..]);
        assert CapNewlines(s)[1..] == t;
        CapKeepsParts(if s[0] == '\n' || (cur == "" && IsSpace(s[0])) then "" else cur + [s[0]], s[1..]);
      }
    }
  }

  lemma {:induction false} LStripKeepsParts(s: string)
    ensures Parts("", LStrip(s)) == Parts("", s)
  {
    if s != "" && IsSpace(s[0]) {
      LStripKeepsParts(s[1..]);
      assert Part("") + Parts("", s[1..]) == Parts("", s[1..]);
    }
  }

  lemma {:induction false} SpaceAtEnd(cur: string, s: string, c: char)
    requires IsSpace(c)
    ensures Parts(cur, s + [c]) == Parts(cur, s)
    decreases |s|
  {
    if s == "" {
      assert s + [c] == [c] && [c][1..] == "";
      RStripSpace(cur, c);
      assert Part(cur) + [] == Part(cur);
    } else {
      assert (s + [c])[1..] == s[1..] + [c];
      SpaceAtEnd(if s[0] == '\n' || (cur == "" && IsSpace(s[0])) then "" else cur + [s[0]], s[1..], c);
    }
  }

  lemma {:induction false} RStripKeepsParts(s: string)
    ensures Parts("", RStrip(s)) == Parts("", s)
    decreases |s|
  {
    if s != "" && IsSpace(s[|s| - 1]) {
      RStripKeepsParts(s[..|s| - 1]);
      SpaceAtEnd("", s[..|s| - 1], s[|s| - 1]);
      assert s[..|s| - 1] + [s[|s| - 1]] == s;
    }
  }

  lemma StripKeepsParts(s: string)
    ensures Parts("", Strip(s)) == Parts("", s)
  {
    LStripKeepsParts(s);
    RStripKeepsParts(LStrip(s));
  }

  // ---- Squashing spaces ----

  /** A space is dropped if another one follows. */
  function KeptChar(c: char, t: string): string {
    if c == ' ' && t != "" && t[0] == ' ' then "" else [c]
  }

  lemma SquashFirst(c: char, t: string)
    ensures SquashSpaces([c] + t) == KeptChar(c, t) + SquashSpaces(t)
  {
    var s := [c] + t;
    assert s[1..] == t && s[0] == c;
    if t != "" {
      assert s[1] == t[0];
    }
    assert "" + SquashSpaces(t) == SquashSpaces(t);
  }

  /** Squashing goes line by line. */
  lemma {:induction false} SquashLines(l: string, rest: string)
    requires rest == "" || rest[0] == '\n'
    ensures SquashSpaces(l + rest) == SquashSpaces(l) + SquashSpaces(rest)
    decreases |l|
  {
    if l == "" {
      assert l + rest == rest;
    } else {
      SquashLines(l[1..], rest);
      SquashInFront(l[0], l[1..], rest);
      assert l == [l[0]] + l[1..];
    }
  }

  lemma SquashInFront(c: char, t: string, rest: string)
    requires SquashSpaces(t + rest) == SquashSpaces(t) + SquashSpaces(rest) && (rest == "" || rest[0] == '\n')
    ensures SquashSpaces([c] + t + rest) == SquashSpaces([c] + t) + SquashSpaces(rest)
  {
    SquashFirst(c, t);
    SquashFirst(c, t + rest);
    KeptAlike(c, t, rest);
    Associative([c], t, rest);
    Associative(KeptChar(c, t), SquashSpaces(t), SquashSpaces(rest));
  }

  lemma KeptAlike(c: char, t: string, rest: string)
    requires rest == "" || rest[0] == '\n'
    ensures KeptChar(c, t + rest) == KeptChar(c, t)
  {
    if t == "" {
      assert t + rest == rest;
    }
  }

  lemma {:induction false} SquashHasNoNewline(l: string)
    requires NoNewline(l)
    ensures NoNewline(SquashSpaces(l))
  {
    if l != "" {
      assert NoNewline(l[1..]);
      SquashHasNoNewline(l[1..]);
    }
  }

  lemma {:induction false} SquashKeepsFirst(s: string)
    requires s != ""
    ensures SquashSpaces(s) != "" && SquashSpaces(s)[0] == s[0]
  {
    if "  " <= s {
      assert s[1..][0] == s[1] == ' ' == s[0];
      SquashKeepsFirst(s[1..]);
    }
  }

  lemma {:induction false} SquashLStrip(l: string)
    ensures LStrip(SquashSpaces(l)) == SquashSpaces(LStrip(l))
  {
    if l != "" {
      SquashKeepsFirst(l);
      if IsSpace(l[0]) {
        SquashLStrip(l[1..]);
        if !("  " <= l) {
          assert SquashSpaces(l)[1..] == SquashSpaces(l[1..]);
        }
      }
    }
  }

  /** A character at the end drops a space in front of it, if it is one itself. */
  lemma {:induction false} SquashAppend(m: string, c: char)
    ensures SquashSpaces(m + [c]) == SquashSpaces(m) + if m != "" && m[|m| - 1] == ' ' && c == ' ' then "" else [c]
    decreases |m|
  {
    if m == "" {
      assert m + [c] == [c] + "";
      SquashFirst(c, "");
    } else {
      var t := m[1..];
      assert m == [m[0]] + t && m + [c] == [m[0]] + (t + [c]);
      SquashAppend(t, c);
      SquashFirst(m[0], t);
      SquashFirst(m[0], t + [c]);
      if t == "" {
        SquashFirst(c, "");
        assert t + [c] == [c] + "";
      }
    }
  }

  lemma SquashSpaceAtEnd(m: string, c: char)
    requires IsSpace(c)
    ensures RStrip(SquashSpaces(m + [c])) == RStrip(SquashSpaces(m))
  {
    SquashAppend(m, c);
    RStripSpace(SquashSpaces(m), c);
    assert SquashSpaces(m) + "" == SquashSpaces(m);
  }

  lemma {:induction false} SquashRStrip(l: string)
    ensures RStrip(SquashSpaces(l)) == SquashSpaces(RStrip(l))
    decreases |l|
  {
    if l != "" {
      var m, c := l[..|l| - 1], l[|l| - 1];
      assert l == m + [c];
      if IsSpace(c) {
        SquashRStrip(m);
        SquashSpaceAtEnd(m, c);
      } else {
        SquashAppend(m, c);
      }
    }
  }

  lemma SquashPart(l: string)
    ensures Part(LStrip(SquashSpaces(l))) == Map(SquashSpaces, Part(LStrip(l)))
  {
    SquashLStrip(l);
    SquashRStrip(LStrip(l));
    if RStrip(LStrip(l)) != "" {
      SquashKeepsFirst(RStrip(LStrip(l)));
    }
  }

  lemma {:induction false} MapAppend<T, U>(f: T -> U, a: seq<T>, b: seq<T>)
    ensures Map(f, a + b) == Map(f, a) + Map(f, b)
  {
    var all := a + b;
    assert forall i :: 0 <= i < |all| ==> Map(f, all)[i] == f(all[i]);
  }

  function SquashLine(ls: seq<string>): (r: seq<string>)
    ensures |r| == |ls| && forall k :: 0 <= k < |ls| ==> r[k] == SquashSpaces(ls[k])
  {
    Map(SquashSpaces, ls)
  }

  lemma {:induction false} SquashJoined(ls: seq<string>)
    ensures SquashSpaces(JoinLines(ls)) == JoinLines(SquashLine(ls))
  {
    if |ls| > 1 {
      SquashJoined(ls[1..]);
      var rest := "\n" + JoinLines(ls[1..]);
      SquashLines(ls[0], rest);
      SquashFirst('\n', JoinLines(ls[1..]));
      assert rest == ['\n'] + JoinLines(ls[1..]) && ls[0] + rest == JoinLines(ls);
      assert SquashLine(ls)[1..] == SquashLine(ls[1..]);
    }
  }

  lemma {:induction false} SquashedParts(ls: seq<string>)
    ensures PartsOfLines(SquashLine(ls)) == SquashLine(PartsOfLines(ls))
  {
    if ls != [] {
      SquashedParts(ls[1..]);
      SquashPart(ls[0]);
      assert SquashLine(ls)[1..] == SquashLine(ls[1..]);
      MapAppend(SquashSpaces, Part(LStrip(ls[0])), PartsOfLines(ls[1..]));
    }
  }

  // ---- Any text is its lines joined ----

  /** Cut at newlines only. */
  function Cut(cur: string, s: string): seq<string>
    decreases |s|
  {
    if s == "" then [cur] else if s[0] == '\n' then [cur] + Cut("", s[1..]) else Cut(cur + [s[0]], s[1..])
  }

  lemma {:induction false} CutJoins(cur: string, s: string)
    requires NoNewline(cur)
    ensures JoinLines(Cut(cur, s)) == cur + s && Cut(cur, s) != []
    ensures forall k :: 0 <= k < |Cut(cur, s)| ==> NoNewline(Cut(cur, s)[k])
    decreases |s|
  {
    if s == "" {
      assert cur + s == cur;
    } else if s[0] == '\n' {
      CutJoins("", s[1..]);
      assert "" + s[1..] == s[1..] && cur + "\n" + s[1..] == cur + s;
    } else {
      CutJoins(cur + [s[0]], s[1..]);
      assert cur + [s[0]] + s[1..] == cur + s;
    }
  }

  /** Squashing squashes the parts. */
  lemma SquashParts(s: string)
    ensures Parts("", SquashSpaces(s)) == SquashLine(Parts("", s))
  {
    var ls := Cut("", s);
    CutJoins("", s);
    assert "" + s == s;
    PartsOfJoined(ls);
    SquashJoined(ls);
    forall k | 0 <= k < |ls| ensures NoNewline(SquashLine(ls)[k]) {
      SquashHasNoNewline(ls[k]);
    }
    PartsOfJoined(SquashLine(ls));
    SquashedParts(ls);
  }

  // ---- What scrubbing keeps ----

  lemma {:induction false} BreakFreeNoNewline(ls: seq<string>)
    requires forall k :: 0 <= k < |ls| ==> BreakFree(ls[k])
    ensures forall k :: 0 <= k < |ls| ==> NoNewline(ls[k])
  {
    forall k | 0 <= k < |ls| ensures NoNewline(ls[k]) {
      assert forall j :: 0 <= j < |ls[k]| ==> ls[k][j] != '\n';
    }
  }

  /** The lines of the text left after row dumps and an unterminated tail are cut. */
  function CutLines(text: string): seq<string> {
    Lines(CutTail(RemoveDumps(text)))
  }

  /** The stripped lines of scrubbed text are exactly the stripped prose lines of the cut text, in order, their runs of spaces
      squashed. */
  lemma ScrubbedParts(text: string)
    ensures Parts("", Scrubbed(text)) == SquashLine(PartsOfLines(ProseOnly(CutLines(text))))
  {
    var kept := ProseOnly(CutLines(text));
    LinesBreakFree("", CutTail(RemoveDumps(text)));
    ProseOnlyLines(CutLines(text));
    BreakFreeNoNewline(kept);
    PartsOfJoined(kept);
    var joined := JoinLines(kept);
    TrimKeepsParts("", joined);
    CapKeepsParts("", TrimLineEnds(joined));
    SquashParts(CapNewlines(TrimLineEnds(joined)));
    StripKeepsParts(SquashSpaces(CapNewlines(TrimLineEnds(joined))));
  }

  // ---- No data line is left ----

  /** What makes a stripped line a data line. */
  predicate IsData(stripped: string) {
    "|" <= stripped || HasAlignedColumns(stripped) || (EndsInNumber(stripped) && |WordsOf(stripped)| <= 5)
  }

  lemma {:induction false} SquashFewerSpaces(t: string)
    ensures var q := SquashSpaces(t); Spaces(q) <= Spaces(t) && (Spaces(q) < |q| <==> Spaces(t) < |t|)
  {
    if t != "" {
      SquashFewerSpaces(t[1..]);
      SquashFirst(t[0], t[1..]);
      SquashKeepsFirst(t);
      assert t == [t[0]] + t[1..];
      if KeptChar(t[0], t[1..]) != "" {
        assert SquashSpaces(t)[1..] == SquashSpaces(t[1..]);
      } else {
        assert "" + SquashSpaces(t[1..]) == SquashSpaces(t[1..]);
      }
    }
  }

  lemma {:induction false} SquashAligned(x: string)
    ensures HasAlignedColumns(SquashSpaces(x)) ==> HasAlignedColumns(x)
  {
    if x != "" {
      SquashAligned(x[1..]);
      SquashFewerSpaces(x[1..]);
      SquashFirst(x[0], x[1..]);
      assert x == [x[0]] + x[1..];
      if KeptChar(x[0], x[1..]) != "" {
        assert SquashSpaces(x)[1..] == SquashSpaces(x[1..]);
      } else {
        assert "" + SquashSpaces(x[1..]) == SquashSpaces(x[1..]);
      }
    }
  }

  predicate NoBlank(s: string) {
    ' ' !in s
  }

  lemma {:induction false} SquashWithoutBlank(t: string)
    ensures NoBlank(SquashSpaces(t)) ==> SquashSpaces(t) == t
  {
    if t != "" {
      SquashWithoutBlank(t[1..]);
      SquashFirst(t[0], t[1..]);
      SquashKeepsFirst(t);
      assert t == [t[0]] + t[1..];
      assert SquashSpaces(t)[0] in SquashSpaces(t);
      if NoBlank(SquashSpaces(t)) {
        assert SquashSpaces(t) == [t[0]] + SquashSpaces(t[1..]);
        forall c | c in SquashSpaces(t[1..]) ensures c != ' ' {
          assert c in SquashSpaces(t);
        }
      }
    }
  }

  lemma NumberHasNoBlank(t: string)
    requires IsNumberText(t)
    ensures NoBlank(t)
  {
    var n := RunLength(t);
    RunLengthEnds(t);
    assert n < |t| ==> t == t[..n] + ['.'] + t[n + 1..];
    assert n == |t| ==> t[..n] == t;
    assert forall k :: 0 <= k < n ==> t[k] == t[..n][k];
  }

  lemma {:induction false} SquashNumber(x: string)
    ensures EndsInNumber(SquashSpaces(x)) ==> EndsInNumber(x)
  {
    if x != "" {
      SquashNumber(x[1..]);
      SquashFirst(x[0], x[1..]);
      SquashWithoutBlank(x);
      assert x == [x[0]] + x[1..];
      if IsNumberText(SquashSpaces(x)) {
        NumberHasNoBlank(SquashSpaces(x));
      }
      if KeptChar(x[0], x[1..]) != "" {
        assert SquashSpaces(x)[1..] == SquashSpaces(x[1..]);
      } else {
        assert "" + SquashSpaces(x[1..]) == SquashSpaces(x[1..]);
      }
    }
  }

  lemma {:induction false} SquashKeepsWords(cur: string, s: string)
    ensures SplitFrom(IsSpace, cur, SquashSpaces(s)) == SplitFrom(IsSpace, cur, s)
    decreases |s|
  {
    if s != "" {
      SquashFirst(s[0], s[1..]);
      assert s == [s[0]] + s[1..];
      if KeptChar(s[0], s[1..]) != "" {
        assert SquashSpaces(s)[1..] == SquashSpaces(s[1..]);
        SquashKeepsWords(if IsSpace(s[0]) then "" else cur + [s[0]], s[1..]);
      } else {
        assert "" + SquashSpaces(s[1..]) == SquashSpaces(s[1..]);
        SquashKeepsWords(cur, s[1..]);
        assert SplitFrom(IsSpace, "", s[1..]) == [] + SplitFrom(IsSpace, "", s[1..][1..]);
      }
    }
  }

  lemma SquashedData(x: string)
    ensures IsData(SquashSpaces(x)) ==> IsData(x)
  {
    SquashAligned(x);
    SquashNumber(x);
    SquashKeepsWords("", x);
    if x != "" {
      SquashKeepsFirst(x);
    }
  }

  lemma {:induction false} ProseParts(ls: seq<string>)
    ensures forall k :: 0 <= k < |PartsOfLines(ProseOnly(ls))| ==> !IsData(PartsOfLines(ProseOnly(ls))[k])
  {
    if ls != [] {
      ProseParts(ls[1..]);
      if !IsDataLine(ls[0]) {
        assert ProseOnly(ls) == [ls[0]] + ProseOnly(ls[1..]);
        assert forall k :: 0 <= k < |Part(LStrip(ls[0]))| ==> !IsData(Part(LStrip(ls[0]))[k]);
      } else {
        assert ProseOnly(ls) == ProseOnly(ls[1..]);
      }
    }
  }

  lemma {:induction false} PartOfText(cur: string, s: string, k: nat)
    requires k < |Parts(cur, s)| && (cur != "" ==> !IsSpace(cur[0]))
    ensures var part := Parts(cur, s)[k]; part != "" && Trim(part)
    decreases |s|
  {
    RStripEnds(cur);
    if s == "" {
    } else if s[0] == '\n' {
      if k >= |Part(cur)| {
        PartOfText("", s[1..], k - |Part(cur)|);
      }
    } else {
      PartOfText(ReadMore(cur, s[0]), s[1..], k);
    }
  }

  /** No line of scrubbed text is a row echo: a line with something on it is one of the parts, and no part is data. */
  lemma NoDataLineLeft(text: string, k: nat)
    requires k < |Parts("", Scrubbed(text))|
    ensures !IsDataLine(Parts("", Scrubbed(text))[k])
  {
    ScrubbedParts(text);
    var parts := PartsOfLines(ProseOnly(CutLines(text)));
    ProseParts(CutLines(text));
    SquashedData(parts[k]);
    PartOfText("", Scrubbed(text), k);
    StripTrims(Parts("", Scrubbed(text))[k]);
  }

  // ---- The whitespace is tidy ----

  predicate SpaceBeforeNewline(s: string) {
    |s| >= 2 && (s[0] == ' ' || s[0] == '\t') && s[1] == '\n'
  }

  predicate TwoSpaces(s: string) {
    |s| >= 2 && s[0] == ' ' && s[1] == ' '
  }

  predicate ThreeNewlines(s: string) {
    |s| >= 3 && s[0] == '\n' && s[1] == '\n' && s[2] == '\n'
  }

  /** Nowhere in the text. */
  predicate Nowhere(bad: string -> bool, s: string) {
    s == "" || (!bad(s) && Nowhere(bad, s[1..]))
  }

  lemma {:induction false} TrimStart(t: string)
    requires TrimLineEnds(t) != "" && TrimLineEnds(t)[0] == '\n'
    ensures BlanksThenNewline(t)
  {
    if t[0] != '\n' && BlanksThenNewline(t) {
      TrimStart(t[1..]);
    }
  }

  lemma {:induction false} TrimTidies(s: string)
    ensures Nowhere(SpaceBeforeNewline, TrimLineEnds(s))
  {
    if s != "" {
      TrimTidies(s[1..]);
      if !(s[0] != '\n' && BlanksThenNewline(s)) {
        var t := TrimLineEnds(s[1..]);
        assert TrimLineEnds(s)[1..] == t;
        if SpaceBeforeNewline(TrimLineEnds(s)) {
          assert t[0] == '\n';
          TrimStart(s[1..]);
          assert false;
        }
      }
    }
  }

  lemma {:induction false} CapStart(s: string)
    requires s != ""
    ensures CapNewlines(s) != "" && CapNewlines(s)[0] == s[0]
    ensures |CapNewlines(s)| >= 2 && CapNewlines(s)[0] == '\n' && CapNewlines(s)[1] == '\n' ==> |s| >= 2 && s[1] == '\n'
  {
    if "\n\n\n" <= s {
      assert s[1..][0] == s[1] == '\n' == s[0];
      CapStart(s[1..]);
    } else {
      assert CapNewlines(s)[1..] == CapNewlines(s[1..]);
      if |s| > 1 {
        CapStart(s[1..]);
      }
    }
  }

  lemma {:induction false} CapTidies(s: string)
    requires Nowhere(SpaceBeforeNewline, s)
    ensures Nowhere(SpaceBeforeNewline, CapNewlines(s)) && Nowhere(ThreeNewlines, CapNewlines(s))
  {
    if s != "" {
      CapTidies(s[1..]);
      if !("\n\n\n" <= s) {
        assert CapNewlines(s)[1..] == CapNewlines(s[1..]);
        if |s| > 1 {
          CapStart(s[1..]);
        }
        assert |s| >= 3 && s[0] == '\n' && s[1] == '\n' && s[2] == '\n' ==> "\n\n\n" <= s;
      }
    }
  }

  lemma SquashStart(s: string)
    requires s != ""
    ensures var q := SquashSpaces(s);
      q != "" && q[0] == s[0] && (s[0] == '\n' && |q| >= 2 && q[1] == '\n' ==> |s| >= 2 && s[1] == '\n')
  {
    SquashKeepsFirst(s);
    SquashFirst(s[0], s[1..]);
    assert s == [s[0]] + s[1..];
    if s[0] == '\n' {
      assert SquashSpaces(s)[1..] == SquashSpaces(s[1..]);
      if |s| > 1 {
        SquashKeepsFirst(s[1..]);
      }
    }
  }

  lemma {:induction false} SquashTidies(s: string)
    requires Nowhere(SpaceBeforeNewline, s) && Nowhere(ThreeNewlines, s)
    ensures Nowhere(SpaceBeforeNewline, SquashSpaces(s)) && Nowhere(ThreeNewlines, SquashSpaces(s)) && Nowhere(TwoSpaces, SquashSpaces(s))
  {
    if s != "" {
      SquashTidies(s[1..]);
      SquashFirst(s[0], s[1..]);
      assert s == [s[0]] + s[1..];
      if |s| > 1 {
        SquashStart(s[1..]);
      }
      if KeptChar(s[0], s[1..]) != "" {
        assert SquashSpaces(s)[1..] == SquashSpaces(s[1..]);
      } else {
        assert "" + SquashSpaces(s[1..]) == SquashSpaces(s[1..]);
      }
    }
  }

  lemma {:induction false} LStripTidy(bad: string -> bool, s: string)
    requires Nowhere(bad, s)
    ensures Nowhere(bad, LStrip(s))
  {
    if s != "" && IsSpace(s[0]) {
      LStripTidy(bad, s[1..]);
    }
  }

  lemma {:induction false} PrefixTidy(bad: string -> bool, s: string, n: nat)
    requires Nowhere(bad, s) && n <= |s| && forall t, k: nat :: k <= |t| && bad(t[..k]) ==> bad(t)
    ensures Nowhere(bad, s[..n])
    decreases n
  {
    if n > 0 {
      assert s[..n][1..] == s[1..][..n - 1];
      PrefixTidy(bad, s[1..], n - 1);
    }
  }

  lemma StripTidy(bad: string -> bool, s: string)
    requires Nowhere(bad, s) && forall t, k: nat :: k <= |t| && bad(t[..k]) ==> bad(t)
    ensures Nowhere(bad, Strip(s))
  {
    LStripTidy(bad, s);
    RStripEnds(LStrip(s));
    PrefixTidy(bad, LStrip(s), |Strip(s)|);
    assert LStrip(s)[..|Strip(s)|] == Strip(s);
  }

  /** Scrubbed text has no two spaces in a row, no space before a newline, and no three newlines in a row. */
  lemma ScrubbedIsTidy(text: string)
    ensures Nowhere(TwoSpaces, Scrubbed(text)) && Nowhere(SpaceBeforeNewline, Scrubbed(text)) && Nowhere(ThreeNewlines, Scrubbed(text))
  {
    var joined := JoinLines(ProseOnly(CutLines(text)));
    TrimTidies(joined);
    CapTidies(TrimLineEnds(joined));
    SquashTidies(CapNewlines(TrimLineEnds(joined)));
    var squashed := SquashSpaces(CapNewlines(TrimLineEnds(joined)));
    StripTidy(TwoSpaces, squashed);
    StripTidy(SpaceBeforeNewline, squashed);
    StripTidy(ThreeNewlines, squashed);
  }
}
