/** Exactly when scrubbing leaves a complete row dump: `scrub_raw_row_dumps` of app/chat/answerer.py. */
module Spans {
  import opened Characters
  import opened Prose
  import opened Totals
  import opened Answerer
  import opened Relational

  // ---- Spans ----

  /** Spaces, then `]`. */
  predicate Bracket(t: string) {
    t != "" && (t[0] == ']' || (IsSpace(t[0]) && Bracket(t[1..])))
  }

  /** `\}\s*\]` somewhere. */
  predicate Closes(t: string) {
    t != "" && ((t[0] == '}' && Bracket(t[1..])) || Closes(t[1..]))
  }

  /** Spaces, then `{`, then a close. */
  predicate Brace(t: string) {
    t != "" && ((t[0] == '{' && Closes(t[1..])) || (IsSpace(t[0]) && Brace(t[1..])))
  }

  /** A complete `[{...}]` span somewhere. */
  predicate HasSpan(t: string) {
    t != "" && ((t[0] == '[' && Brace(t[1..])) || HasSpan(t[1..]))
  }

  lemma {:induction false} BracketIs(t: string)
    ensures Bracket(t) <==> Spaces(t) < |t| && t[Spaces(t)] == ']'
  {
    if t != "" && IsSpace(t[0]) {
      BracketIs(t[1..]);
    }
  }

  lemma {:induction false} ClosesIs(t: string)
    ensures Closes(t) <==> ClosesDump(t) > 0
  {
    if t != "" {
      BracketIs(t[1..]);
      ClosesIs(t[1..]);
    }
  }

  lemma {:induction false} BraceIs(t: string)
    ensures Brace(t) <==> Spaces(t) < |t| && t[Spaces(t)] == '{' && Closes(t[Spaces(t) + 1..])
  {
    if t != "" && IsSpace(t[0]) {
      BraceIs(t[1..]);
      if Spaces(t) < |t| {
        assert t[1..][Spaces(t[1..]) + 1..] == t[Spaces(t) + 1..];
      }
    }
  }

  lemma DumpIs(t: string)
    requires t != ""
    ensures DumpLength(t) > 0 <==> t[0] == '[' && Brace(t[1..])
  {
    BraceIs(t[1..]);
    var k := 1 + Spaces(t[1..]);
    if k < |t| {
      assert t[1..][k..] == t[k + 1..];
      ClosesIs(t[k + 1..]);
    }
  }

  /** The spans are what the pattern matches. */
  lemma {:induction false} HasSpanIs(t: string)
    ensures HasSpan(t) <==> exists i :: 0 <= i < |t| && DumpLength(t[i..]) > 0
  {
    if t != "" {
      DumpIs(t);
      HasSpanIs(t[1..]);
      assert t[0..] == t;
      if HasSpan(t[1..]) {
        var i :| 0 <= i < |t[1..]| && DumpLength(t[1..][i..]) > 0;
        assert t[1..][i..] == t[i + 1..];
      }
      if i :| 0 < i < |t| && DumpLength(t[i..]) > 0 {
        assert t[1..][i - 1..] == t[i..];
      }
    }
  }

  // ---- Spans depend on the characters that are not spaces ----

  function Solid(t: string): string {
    if t == "" then "" else (if IsSpace(t[0]) then "" else [t[0]]) + Solid(t[1..])
  }

  lemma {:induction false} BracketSolid(t: string)
    ensures Bracket(Solid(t)) <==> Bracket(t)
  {
    if t != "" {
      BracketSolid(t[1..]);
      SolidFirst(t);
    }
  }

  lemma SolidFirst(t: string)
    requires t != ""
    ensures if IsSpace(t[0]) then Solid(t) == Solid(t[1..]) else Solid(t) != "" && Solid(t)[0] == t[0] && Solid(t)[1..] == Solid(t[1..])
  {
  }

  lemma {:induction false} ClosesSolid(t: string)
    ensures Closes(Solid(t)) <==> Closes(t)
  {
    if t != "" {
      ClosesSolid(t[1..]);
      BracketSolid(t[1..]);
      SolidFirst(t);
    }
  }

  lemma {:induction false} BraceSolid(t: string)
    ensures Brace(Solid(t)) <==> Brace(t)
  {
    if t != "" {
      BraceSolid(t[1..]);
      ClosesSolid(t[1..]);
      SolidFirst(t);
    }
  }

  lemma {:induction false} SpanSolid(t: string)
    ensures HasSpan(Solid(t)) <==> HasSpan(t)
  {
    if t != "" {
      SpanSolid(t[1..]);
      BraceSolid(t[1..]);
      SolidFirst(t);
    }
  }

  // ---- A text as kept characters and gaps ----

  /** A gap holds the text that was taken out. */
  datatype Piece = Kept(c: char) | Gap(text: string)

  type Pieces = seq<Piece>

  function Residual(ps: Pieces): string {
    if ps == [] then "" else (if ps[0].Kept? then [ps[0].c] else "") + Residual(ps[1..])
  }

  function Original(p: Piece): string {
    if p.Kept? then [p.c] else p.text
  }

  function TextOf(ps: Pieces): string {
    if ps == [] then "" else Original(ps[0]) + TextOf(ps[1..])
  }

  predicate IsBlank(p: Piece) {
    p.Gap? || IsSpace(p.c)
  }

  /** Blanks, then `]`; `gap` says that a gap was seen. */
  predicate BracketAfter(ps: Pieces, gap: bool) {
    ps != [] && (if IsBlank(ps[0]) then BracketAfter(ps[1..], gap || ps[0].Gap?) else ps[0].c == ']' && gap)
  }

  /** A `}` with nothing but blanks before a `]`, with a gap among them if one is asked for. */
  predicate ClosesAfter(ps: Pieces, gap: bool) {
    ps != [] && ((ps[0] == Kept('}') && BracketAfter(ps[1..], gap)) || ClosesAfter(ps[1..], gap))
  }

  /** Blanks, then `{`, then a close; a gap lies before the brace or inside the close. */
  predicate BraceAfter(ps: Pieces, gap: bool) {
    ps != [] && (if IsBlank(ps[0]) then BraceAfter(ps[1..], gap || ps[0].Gap?) else ps[0].c == '{' && ClosesAfter(ps[1..], gap))
  }

  /**
   * A kept `[` has nothing but spaces and gaps before a kept `{`, and later a kept `}` has nothing but spaces and gaps before a
   * kept `]`, and at least one gap lies in one of these two places.
   */
  predicate LeavesSpan(ps: Pieces) {
    ps != [] && ((ps[0] == Kept('[') && BraceAfter(ps[1..], false)) || LeavesSpan(ps[1..]))
  }

  // ---- What is taken out by the first pass ----

  function Cuts(s: string): Pieces
    decreases |s|
  {
    if s == "" then []
    else if DumpLength(s) > 0 then [Gap(s[..DumpLength(s)])] + Cuts(s[DumpLength(s)..])
    else [Kept(s[0])] + Cuts(s[1..])
  }

  lemma {:induction false} ResidualAppend(a: Pieces, b: Pieces)
    ensures Residual(a + b) == Residual(a) + Residual(b)
  {
    if a == [] {
      assert a + b == b;
    } else {
      ResidualAppend(a[1..], b);
      assert (a + b)[1..] == a[1..] + b && (a + b)[0] == a[0];
      Associative(if a[0].Kept? then [a[0].c] else "", Residual(a[1..]), Residual(b));
    }
  }

  lemma TextCons(p: Piece, rest: Pieces)
    ensures TextOf([p] + rest) == Original(p) + TextOf(rest)
  {
    assert ([p] + rest)[1..] == rest;
  }

  lemma {:induction false} TextAppend(a: Pieces, b: Pieces)
    ensures TextOf(a + b) == TextOf(a) + TextOf(b)
  {
    if a == [] {
      assert a + b == b;
    } else {
      TextAppend(a[1..], b);
      assert a + b == [a[0]] + (a[1..] + b);
      TextCons(a[0], a[1..] + b);
      Associative(Original(a[0]), TextOf(a[1..]), TextOf(b));
    }
  }

  lemma OnePiece(p: Piece)
    ensures Residual([p]) == (if p.Kept? then [p.c] else "") && TextOf([p]) == Original(p)
  {
    assert [p][1..] == [];
  }

  lemma KeptCut(s: string)
    requires s != "" && DumpLength(s) == 0
    ensures Cuts(s) == [Kept(s[0])] + Cuts(s[1..])
    ensures RemoveDumps(s) == [s[0]] + RemoveDumps(s[1..])
  {
  }

  lemma GapCut(s: string, n: nat)
    requires n == DumpLength(s) > 0
    ensures Cuts(s) == [Gap(s[..n])] + Cuts(s[n..])
    ensures RemoveDumps(s) == "" + RemoveDumps(s[n..])
  {
  }

  lemma PieceThen(p: Piece, rest: Pieces)
    ensures Residual([p] + rest) == (if p.Kept? then [p.c] else "") + Residual(rest)
    ensures TextOf([p] + rest) == Original(p) + TextOf(rest)
  {
    ResidualAppend([p], rest);
    TextAppend([p], rest);
    OnePiece(p);
  }

  lemma SplitAt(s: string, n: nat)
    requires n <= |s|
    ensures s == s[..n] + s[n..]
  {
  }

  lemma CutsThen(s: string, p: Piece, rest: string)
    requires Cuts(s) == [p] + Cuts(rest) && RemoveDumps(s) == (if p.Kept? then [p.c] else "") + RemoveDumps(rest)
    requires s == Original(p) + rest && Residual(Cuts(rest)) == RemoveDumps(rest) && TextOf(Cuts(rest)) == rest
    ensures Residual(Cuts(s)) == RemoveDumps(s) && TextOf(Cuts(s)) == s
  {
    PieceThen(p, Cuts(rest));
  }

  lemma {:induction false} CutsAre(s: string)
    ensures Residual(Cuts(s)) == RemoveDumps(s) && TextOf(Cuts(s)) == s
    decreases |s|
  {
    var n := DumpLength(s);
    if s == "" {
    } else if n > 0 {
      GapCut(s, n);
      CutsAre(s[n..]);
      SplitAt(s, n);
      CutsThen(s, Gap(s[..n]), s[n..]);
    } else {
      KeptCut(s);
      CutsAre(s[1..]);
      SplitAt(s, 1);
      CutsThen(s, Kept(s[0]), s[1..]);
    }
  }

  // ---- Spans of what is kept, read off the pieces ----

  lemma ResidualFirst(ps: Pieces)
    requires ps != []
    ensures if ps[0].Gap? then Residual(ps) == Residual(ps[1..])
            else Residual(ps) != "" && Residual(ps)[0] == ps[0].c && Residual(ps)[1..] == Residual(ps[1..])
  {
  }

  lemma {:induction false} BracketResidual(ps: Pieces)
    ensures Bracket(Residual(ps)) <==> BracketAfter(ps, true)
  {
    if ps != [] {
      ResidualFirst(ps);
      BracketResidual(ps[1..]);
    }
  }

  lemma {:induction false} ClosesResidual(ps: Pieces)
    ensures Closes(Residual(ps)) <==> ClosesAfter(ps, true)
  {
    if ps != [] {
      ResidualFirst(ps);
      BracketResidual(ps[1..]);
      ClosesResidual(ps[1..]);
    }
  }

  lemma {:induction false} BraceResidual(ps: Pieces)
    ensures Brace(Residual(ps)) <==> BraceAfter(ps, true)
  {
    if ps != [] {
      ResidualFirst(ps);
      ClosesResidual(ps[1..]);
      BraceResidual(ps[1..]);
    }
  }

  // ---- Without a gap, the span was there before ----

  lemma TextFirst(ps: Pieces, tail: string)
    requires ps != []
    ensures TextOf(ps) + tail == Original(ps[0]) + (TextOf(ps[1..]) + tail)
  {
  }

  lemma {:induction false} BracketGapFree(ps: Pieces, tail: string)
    ensures BracketAfter(ps, false) ==> BracketAfter(ps, true)
    ensures BracketAfter(ps, true) && !BracketAfter(ps, false) ==> Bracket(TextOf(ps) + tail)
  {
    if ps != [] && ps[0].Kept? {
      BracketGapFree(ps[1..], tail);
      TextFirst(ps, tail);
    }
  }

  lemma {:induction false} ClosesLater(a: string, b: string)
    requires Closes(b)
    ensures Closes(a + b)
  {
    if a == "" {
      assert a + b == b;
    } else {
      ClosesLater(a[1..], b);
      assert (a + b)[1..] == a[1..] + b;
    }
  }

  lemma {:induction false} ClosesGapFree(ps: Pieces, tail: string)
    ensures ClosesAfter(ps, false) ==> ClosesAfter(ps, true)
    ensures ClosesAfter(ps, true) && !ClosesAfter(ps, false) ==> Closes(TextOf(ps) + tail)
  {
    if ps != [] {
      ClosesGapFree(ps[1..], tail);
      BracketGapFree(ps[1..], tail);
      TextFirst(ps, tail);
      if ClosesAfter(ps[1..], true) && !ClosesAfter(ps[1..], false) {
        ClosesLater(Original(ps[0]), TextOf(ps[1..]) + tail);
      }
    }
  }

  lemma {:induction false} BraceGapFree(ps: Pieces, tail: string)
    ensures BraceAfter(ps, false) ==> BraceAfter(ps, true)
    ensures BraceAfter(ps, true) && !BraceAfter(ps, false) ==> Brace(TextOf(ps) + tail)
  {
    if ps != [] && ps[0].Kept? {
      BraceGapFree(ps[1..], tail);
      ClosesGapFree(ps[1..], tail);
      TextFirst(ps, tail);
    }
  }

  /** Nothing matched at any kept character of the text that the pieces and `tail` make up. */
  ghost predicate Unmatched(ps: Pieces, tail: string) {
    ps == [] || ((ps[0].Kept? ==> DumpLength(TextOf(ps) + tail) == 0) && Unmatched(ps[1..], tail))
  }

  lemma SpanHasGap(rest: Pieces, tail: string)
    requires DumpLength(['['] + (TextOf(rest) + tail)) == 0
    ensures Brace(Residual(rest)) <==> BraceAfter(rest, false)
  {
    BraceResidual(rest);
    BraceGapFree(rest, tail);
    DumpIs(['['] + (TextOf(rest) + tail));
    assert (['['] + (TextOf(rest) + tail))[1..] == TextOf(rest) + tail;
  }

  lemma {:induction false} SpansHaveGaps(ps: Pieces, tail: string)
    requires Unmatched(ps, tail)
    ensures HasSpan(Residual(ps)) <==> LeavesSpan(ps)
  {
    if ps != [] {
      SpansHaveGaps(ps[1..], tail);
      ResidualFirst(ps);
      if ps[0] == Kept('[') {
        TextFirst(ps, tail);
        SpanHasGap(ps[1..], tail);
      }
    }
  }

  lemma {:induction false} CutsUnmatched(s: string)
    ensures Unmatched(Cuts(s), "")
    decreases |s|
  {
    CutsAre(s);
    assert TextOf(Cuts(s)) + "" == s;
    if s == "" {
    } else if DumpLength(s) > 0 {
      CutsUnmatched(s[DumpLength(s)..]);
      assert Cuts(s)[1..] == Cuts(s[DumpLength(s)..]);
    } else {
      CutsUnmatched(s[1..]);
      assert Cuts(s)[1..] == Cuts(s[1..]);
    }
  }

  // ---- The first pass ----

  /** As `BraceAfter`, with the gap before the brace. */
  predicate BraceAcross(ps: Pieces, gap: bool) {
    ps != [] && (if IsBlank(ps[0]) then BraceAcross(ps[1..], gap || ps[0].Gap?) else ps[0].c == '{' && gap && ClosesAfter(ps[1..], true))
  }

  /** A kept `[` is followed by spaces and at least one removed span before a kept `{` that has a close after it. */
  predicate LeavesAcross(ps: Pieces) {
    ps != [] && ((ps[0] == Kept('[') && BraceAcross(ps[1..], false)) || LeavesAcross(ps[1..]))
  }

  lemma {:induction false} DumpCloses(t: string)
    requires DumpLength(t) > 0
    ensures Closes(t)
  {
    DumpIs(t);
    BraceCloses(t[1..]);
  }

  lemma {:induction false} BraceCloses(t: string)
    requires Brace(t)
    ensures Closes(t)
  {
    if !(t[0] == '{' && Closes(t[1..])) {
      BraceCloses(t[1..]);
    }
  }

  lemma {:induction false} BracketInCuts(t: string)
    requires BracketAfter(Cuts(t), true)
    ensures Bracket(t) || Closes(t)
    decreases |t|
  {
    if DumpLength(t) > 0 {
      DumpCloses(t);
    } else {
      assert Cuts(t)[1..] == Cuts(t[1..]);
      if IsSpace(t[0]) {
        BracketInCuts(t[1..]);
      }
    }
  }

  /** A close in what is kept was a close before: removing spans makes none where there was none. */
  lemma {:induction false} ClosesInCuts(t: string)
    requires ClosesAfter(Cuts(t), true)
    ensures Closes(t)
    decreases |t|
  {
    if DumpLength(t) > 0 {
      DumpCloses(t);
    } else {
      assert Cuts(t)[1..] == Cuts(t[1..]);
      if ClosesAfter(Cuts(t[1..]), true) {
        ClosesInCuts(t[1..]);
      } else {
        BracketInCuts(t[1..]);
      }
    }
  }

  lemma {:induction false} AcrossOrAfter(ps: Pieces)
    ensures BraceAcross(ps, true) <==> BraceAfter(ps, true)
    ensures BraceAcross(ps, false) ==> BraceAfter(ps, true)
  {
    if ps != [] && IsBlank(ps[0]) {
      AcrossOrAfter(ps[1..]);
    }
  }

  lemma {:induction false} BraceInCuts(t: string)
    requires BraceAfter(Cuts(t), true) && !BraceAcross(Cuts(t), false)
    ensures Brace(t)
    decreases |t|
  {
    if DumpLength(t) > 0 {
      AcrossOrAfter(Cuts(t)[1..]);
      assert false;
    } else {
      assert Cuts(t)[1..] == Cuts(t[1..]);
      if IsSpace(t[0]) {
        BraceInCuts(t[1..]);
      } else {
        ClosesInCuts(t[1..]);
      }
    }
  }

  /** Removing spans leaves one exactly when a kept `[` stands before removed spans and then a kept `{` with a close after it. */
  lemma {:induction false} RemovalLeavesSpan(s: string)
    ensures HasSpan(RemoveDumps(s)) <==> LeavesAcross(Cuts(s))
    decreases |s|
  {
    if s == "" {
    } else if DumpLength(s) > 0 {
      RemovalLeavesSpan(s[DumpLength(s)..]);
      assert Cuts(s)[1..] == Cuts(s[DumpLength(s)..]);
    } else {
      RemovalLeavesSpan(s[1..]);
      var rest := Cuts(s[1..]);
      assert Cuts(s)[1..] == rest && RemoveDumps(s)[1..] == RemoveDumps(s[1..]);
      CutsAre(s[1..]);
      BraceResidual(rest);
      AcrossOrAfter(rest);
      if BraceAfter(rest, true) && !BraceAcross(rest, false) {
        BraceInCuts(s[1..]);
        DumpIs(s);
      }
    }
  }

  // ---- The second pass: the unterminated tail ----

  function CutPieces(ps: Pieces): Pieces {
    if ps == [] then []
    else if ps[0].Kept? && "[{" <= Residual(ps) then (if Contains(Residual(ps), "}]") then ps else [])
    else [ps[0]] + CutPieces(ps[1..])
  }

  lemma CutTailStep(s: string)
    requires s != "" && !("[{" <= s)
    ensures CutTail(s) == [s[0]] + CutTail(s[1..])
  {
  }

  lemma {:induction false} CutPiecesAre(ps: Pieces)
    ensures Residual(CutPieces(ps)) == CutTail(Residual(ps)) && CutPieces(ps) <= ps
  {
    if ps != [] && !(ps[0].Kept? && "[{" <= Residual(ps)) {
      ResidualFirst(ps);
      CutPiecesAre(ps[1..]);
      ResidualAppend([ps[0]], CutPieces(ps[1..]));
      OnePiece(ps[0]);
      assert ps == [ps[0]] + ps[1..];
      if ps[0].Kept? {
        CutTailStep(Residual(ps));
      }
    }
  }

  lemma {:induction false} UnmatchedAppend(a: Pieces, b: Pieces, tail: string)
    ensures Unmatched(a + b, tail) <==> Unmatched(a, TextOf(b) + tail) && Unmatched(b, tail)
  {
    if a == [] {
      assert a + b == b;
    } else {
      UnmatchedAppend(a[1..], b, tail);
      assert (a + b)[1..] == a[1..] + b && (a + b)[0] == a[0];
      TextAppend(a, b);
      Associative(TextOf(a), TextOf(b), tail);
    }
  }

  // ---- The third pass: data lines ----

  /** A line that is dropped leaves a gap. */
  function Flush(line: Pieces): Pieces {
    if IsDataLine(Residual(line)) then [Gap(TextOf(line))] else line
  }

  /** The pieces with a gap for each data line; `line` is what was read of the current line. */
  function MarkLines(line: Pieces, ps: Pieces): Pieces
    decreases |ps|
  {
    if ps == [] then Flush(line)
    else if ps[0].Kept? && IsBreak(ps[0].c) then Flush(line) + ([ps[0]] + MarkLines([], ps[1..]))
    else MarkLines(line + [ps[0]], ps[1..])
  }

  lemma FlushKeeps(line: Pieces, tail: string)
    requires Unmatched(line, tail)
    ensures Unmatched(Flush(line), tail) && TextOf(Flush(line)) == TextOf(line)
  {
    OnePiece(Gap(TextOf(line)));
    assert [Gap(TextOf(line))][1..] == [];
  }

  lemma {:induction false} MarkingKeeps(line: Pieces, ps: Pieces, tail: string)
    requires Unmatched(line + ps, tail)
    ensures Unmatched(MarkLines(line, ps), tail) && TextOf(MarkLines(line, ps)) == TextOf(line + ps)
    decreases |ps|
  {
    if ps == [] {
      assert line + ps == line;
      FlushKeeps(line, tail);
    } else if ps[0].Kept? && IsBreak(ps[0].c) {
      MarkingBreak(line, ps, tail);
    } else {
      assert line + [ps[0]] + ps[1..] == line + ps;
      MarkingKeeps(line + [ps[0]], ps[1..], tail);
    }
  }

  lemma {:induction false} MarkingBreak(line: Pieces, ps: Pieces, tail: string)
    requires ps != [] && ps[0].Kept? && IsBreak(ps[0].c) && Unmatched(line + ps, tail)
    ensures Unmatched(MarkLines(line, ps), tail) && TextOf(MarkLines(line, ps)) == TextOf(line + ps)
    decreases |ps|, 0
  {
    var rest := MarkLines([], ps[1..]);
    UnmatchedAppend(line, ps, tail);
    FlushKeeps(line, TextOf(ps) + tail);
    assert [] + ps[1..] == ps[1..];
    MarkingKeeps([], ps[1..], tail);
    var after := [ps[0]] + rest;
    assert after[1..] == rest && TextOf(after) == TextOf(ps);
    UnmatchedAppend(Flush(line), after, tail);
    TextAppend(Flush(line), after);
    TextAppend(line, ps);
  }

  // ---- The characters that are left, spaces aside ----

  lemma {:induction false} SolidAppend(a: string, b: string)
    ensures Solid(a + b) == Solid(a) + Solid(b)
  {
    if a == "" {
      assert a + b == b;
    } else {
      SolidAppend(a[1..], b);
      assert (a + b)[1..] == a[1..] + b && (a + b)[0] == a[0];
      Associative(if IsSpace(a[0]) then "" else [a[0]], Solid(a[1..]), Solid(b));
    }
  }

  function SolidLine(line: string): string {
    if IsDataLine(line) then "" else Solid(line)
  }

  /** What is left of the text, spaces aside, once data lines are dropped; `cur` is what was read of the current line. */
  function Sieve(cur: string, s: string): string
    decreases |s|
  {
    if s == "" then SolidLine(cur)
    else if IsBreak(s[0]) then SolidLine(cur) + Sieve("", s[1..])
    else Sieve(cur + [s[0]], s[1..])
  }

  function SolidLines(ls: seq<string>): string {
    if ls == [] then "" else SolidLine(ls[0]) + SolidLines(ls[1..])
  }

  lemma {:induction false} SolidJoined(ls: seq<string>)
    ensures Solid(JoinLines(ProseOnly(ls))) == SolidLines(ls)
  {
    if ls != [] {
      SolidJoined(ls[1..]);
      var rest := ProseOnly(ls[1..]);
      if IsDataLine(ls[0]) {
        assert ProseOnly(ls) == rest;
      } else {
        assert ProseOnly(ls) == [ls[0]] + rest && ([ls[0]] + rest)[1..] == rest;
        if rest != [] {
          SolidAppend(ls[0] + "\n", JoinLines(rest));
          SolidAppend(ls[0], "\n");
          assert Solid("\n") == "" && Solid(ls[0]) + "" == Solid(ls[0]);
        }
      }
    }
  }

  lemma {:induction false} SieveIsProse(cur: string, s: string)
    ensures Sieve(cur, s) == SolidLines(LinesFrom(cur, s))
    decreases |s|
  {
    if s == "" {
      assert Strip("") == "";
      if cur != "" {
        assert [cur][1..] == [] && SolidLine(cur) + "" == SolidLine(cur);
      }
    } else if !IsBreak(s[0]) {
      SieveIsProse(cur + [s[0]], s[1..]);
    } else {
      var after := s[if s[0] == '\r' && |s| > 1 && s[1] == '\n' then 2 else 1..];
      SieveIsProse("", after);
      assert ([cur] + LinesFrom("", after))[1..] == LinesFrom("", after);
      if s[0] == '\r' && |s| > 1 && s[1] == '\n' {
        assert s[1..][0] == '\n' && s[1..][1..] == after && Solid("") == "";
        assert "" + Sieve("", after) == Sieve("", after);
      }
    }
  }

  lemma FlushLeaves(line: Pieces)
    ensures Solid(Residual(Flush(line))) == SolidLine(Residual(line))
  {
    OnePiece(Gap(TextOf(line)));
  }

  lemma {:induction false} MarkingLeaves(line: Pieces, ps: Pieces)
    ensures Solid(Residual(MarkLines(line, ps))) == Sieve(Residual(line), Residual(ps))
    decreases |ps|
  {
    if ps == [] {
      FlushLeaves(line);
    } else {
      ResidualFirst(ps);
      if ps[0].Kept? && IsBreak(ps[0].c) {
        var rest := MarkLines([], ps[1..]);
        MarkingLeaves([], ps[1..]);
        FlushLeaves(line);
        var after := [ps[0]] + rest;
        assert after[1..] == rest;
        ResidualFirst(after);
        SolidFirst(Residual(after));
        ResidualAppend(Flush(line), after);
        SolidAppend(Residual(Flush(line)), Residual(after));
      } else {
        MarkingLeaves(line + [ps[0]], ps[1..]);
        ResidualAppend(line, [ps[0]]);
        OnePiece(ps[0]);
        assert Residual(line) + "" == Residual(line);
      }
    }
  }

  // ---- The last passes take out spaces only ----

  lemma {:induction false} TrimKeepsSolid(s: string)
    ensures Solid(TrimLineEnds(s)) == Solid(s)
  {
    if s != "" {
      TrimKeepsSolid(s[1..]);
      if !(s[0] != '\n' && BlanksThenNewline(s)) {
        assert TrimLineEnds(s)[1..] == TrimLineEnds(s[1..]);
      }
    }
  }

  lemma {:induction false} CapKeepsSolid(s: string)
    ensures Solid(CapNewlines(s)) == Solid(s)
  {
    if s != "" {
      CapKeepsSolid(s[1..]);
      if !("\n\n\n" <= s) {
        assert CapNewlines(s)[1..] == CapNewlines(s[1..]);
      }
    }
  }

  lemma {:induction false} SquashKeepsSolid(s: string)
    ensures Solid(SquashSpaces(s)) == Solid(s)
  {
    if s != "" {
      SquashKeepsSolid(s[1..]);
      if !("  " <= s) {
        assert SquashSpaces(s)[1..] == SquashSpaces(s[1..]);
      }
    }
  }

  lemma {:induction false} LStripKeepsSolid(s: string)
    ensures Solid(LStrip(s)) == Solid(s)
  {
    if s != "" && IsSpace(s[0]) {
      LStripKeepsSolid(s[1..]);
    }
  }

  lemma {:induction false} RStripKeepsSolid(s: string)
    ensures Solid(RStrip(s)) == Solid(s)
    decreases |s|
  {
    if s != "" && IsSpace(s[|s| - 1]) {
      var m, c := s[..|s| - 1], s[|s| - 1];
      RStripKeepsSolid(m);
      SolidAppend(m, [c]);
      assert m + [c] == s && [c][1..] == "" && Solid([c]) == "" && Solid(m) + "" == Solid(m);
    }
  }

  // ---- The whole scrubber ----

  /** The text as pieces, with a gap for each removed span and each dropped data line, up to where an unterminated tail is cut. */
  function Scrubs(text: string): Pieces {
    MarkLines([], CutPieces(Cuts(text)))
  }

  lemma ScrubsAre(text: string)
    ensures Solid(Scrubbed(text)) == Solid(Residual(Scrubs(text)))
  {
    CutsAre(text);
    var ps := CutPieces(Cuts(text));
    CutPiecesAre(Cuts(text));
    MarkingLeaves([], ps);
    SieveIsProse("", Residual(ps));
    SolidJoined(Lines(Residual(ps)));
    var joined := JoinLines(ProseOnly(Lines(Residual(ps))));
    TrimKeepsSolid(joined);
    CapKeepsSolid(TrimLineEnds(joined));
    SquashKeepsSolid(CapNewlines(TrimLineEnds(joined)));
    var squashed := SquashSpaces(CapNewlines(TrimLineEnds(joined)));
    LStripKeepsSolid(squashed);
    RStripKeepsSolid(LStrip(squashed));
  }

  lemma ScrubsUnmatched(text: string) returns (tail: string)
    ensures Unmatched(Scrubs(text), tail)
  {
    var all := Cuts(text);
    var ps := CutPieces(all);
    CutPiecesAre(all);
    CutsUnmatched(text);
    assert all == ps + all[|ps|..];
    UnmatchedAppend(ps, all[|ps|..], "");
    tail := TextOf(all[|ps|..]) + "";
    assert [] + ps == ps;
    MarkingKeeps([], ps, tail);
  }

  /**
   * Scrubbed text still holds a complete row dump exactly when some gap, a removed span or a dropped data line, brought it
   * together: a span that was there all along never survives.
   */
  lemma ScrubbedLeavesSpan(text: string)
    ensures HasSpan(Scrubbed(text)) <==> LeavesSpan(Scrubs(text))
  {
    ScrubsAre(text);
    SpanSolid(Scrubbed(text));
    SpanSolid(Residual(Scrubs(text)));
    var tail := ScrubsUnmatched(text);
    SpansHaveGaps(Scrubs(text), tail);
  }

  // ---- Two texts that keep a span ----

  lemma {:induction false} WithoutOpening(t: string)
    requires '[' !in t
    ensures Cuts(t) == seq(|t|, k requires 0 <= k < |t| => Kept(t[k]))
  {
    if t != "" {
      KeptCut(t);
      assert forall c :: c in t[1..] ==> c in t;
      WithoutOpening(t[1..]);
    }
  }

  lemma InnerCut(inner: string, after: string)
    requires inner == "[{}]" + after && after == "{}]"
    ensures Cuts(inner) == [Gap("[{}]")] + Cuts(after)
  {
    assert inner == "[{}]{}]";
    InnerDump();
    GapCut(inner, 4);
    assert inner[..4] == "[{}]" && inner[4..] == after;
  }

  lemma OuterCut(s: string, inner: string)
    requires s == ['['] + inner && inner != "" && inner[0] == '['
    ensures Cuts(s) == [Kept('[')] + Cuts(inner)
  {
    assert s[1..] == inner && Spaces(inner) == 0;
    KeptCut(s);
  }

  lemma AfterCut(after: string)
    requires after == "{}]"
    ensures Cuts(after) == [Kept('{'), Kept('}'), Kept(']')]
  {
    WithoutOpening(after);
  }

  lemma NestedCuts(s: string, inner: string, after: string)
    requires s == ['['] + inner && inner == "[{}]" + after && after == "{}]"
    ensures Cuts(s) == [Kept('[')] + ([Gap("[{}]")] + [Kept('{'), Kept('}'), Kept(']')])
  {
    assert inner != "" && inner[0] == '[';
    OuterCut(s, inner);
    InnerCut(inner, after);
    AfterCut(after);
  }

  lemma Uncut(ps: Pieces)
    requires ps != [] && ps[0].Kept? && "[{}]" == Residual(ps)
    ensures CutPieces(ps) == ps
  {
    var t := Residual(ps);
    assert t[1..][1..] == "}]" && Contains(t[1..][1..], "}]") && Contains(t[1..], "}]");
    assert Contains(t, "}]") && "[{" <= t;
  }

  /** A span inside a span. */
  lemma NestedSpanIsLeft(text: string)
    requires text == "[[{}]{}]"
    ensures HasSpan(Scrubbed(text))
  {
    assert text == ['['] + text[1..] && text[1..] == "[{}]" + text[5..] && text[5..] == "{}]";
    NestedCuts(text, text[1..], text[5..]);
    NestedResidual(text);
    SpanKept(Cuts(text));
    ScrubbedLeavesSpan(text);
  }

  lemma NestedResidual(text: string)
    requires text == "[[{}]{}]"
    ensures Residual(Cuts(text)) == "[{}]"
  {
    CutsAre(text);
    RemovedSpanMakesAnother();
  }

  lemma NestedMarked(ps: Pieces)
    requires ps == [Kept('[')] + ([Gap("[{}]")] + [Kept('{'), Kept('}'), Kept(']')]) && Residual(ps) == "[{}]"
    ensures MarkLines([], ps) == ps
  {
    PlainLine(Residual(ps));
    OneLine(ps);
  }

  lemma SpanKept(ps: Pieces)
    requires ps == [Kept('[')] + ([Gap("[{}]")] + [Kept('{'), Kept('}'), Kept(']')]) && Residual(ps) == "[{}]"
    ensures LeavesSpan(MarkLines([], CutPieces(ps)))
  {
    Uncut(ps);
    NestedMarked(ps);
    SpanAfterGap(ps);
  }

  lemma {:induction false} NoColumns(t: string)
    requires forall c :: c in t ==> !IsSpace(c) && !IsDigit(c) && c != ','
    ensures !HasAlignedColumns(t) && !EndsInNumber(t) && LStrip(t) == t && RStrip(t) == t
  {
    if t != "" {
      assert forall c :: c in t[1..] ==> c in t;
      NoColumns(t[1..]);
      assert t[0] in t && t[|t| - 1] in t;
      if |t| > 1 {
        assert t[1] in t;
      }
    }
  }

  lemma PlainLine(t: string)
    requires t != "" && t[0] != '|' && forall c :: c in t ==> !IsSpace(c) && !IsDigit(c) && c != ','
    ensures !IsDataLine(t)
  {
    NoColumns(t);
  }

  lemma {:induction false} MarkedLine(line: Pieces, ps: Pieces)
    requires forall k :: 0 <= k < |ps| && ps[k].Kept? ==> !IsBreak(ps[k].c)
    ensures MarkLines(line, ps) == Flush(line + ps)
    decreases |ps|
  {
    if ps == [] {
      assert line + ps == line;
    } else {
      MarkedLine(line + [ps[0]], ps[1..]);
      assert line + [ps[0]] + ps[1..] == line + ps;
    }
  }

  lemma OneLine(ps: Pieces)
    requires !IsDataLine(Residual(ps)) && forall k :: 0 <= k < |ps| && ps[k].Kept? ==> !IsBreak(ps[k].c)
    ensures MarkLines([], ps) == ps
  {
    MarkedLine([], ps);
    assert [] + ps == ps;
  }

  lemma SpanAfterGap(ps: Pieces)
    requires ps == [Kept('['), Gap("[{}]"), Kept('{'), Kept('}'), Kept(']')]
    ensures LeavesSpan(ps)
  {
    var a, b, c, e := ps[1..], ps[2..], ps[3..], ps[4..];
    assert a[1..] == b && b[1..] == c && c[1..] == e;
    assert BracketAfter(e, true) && ClosesAfter(c, true) && BraceAfter(b, true) && BraceAfter(a, false);
  }
}
