/** Rewriting Western digit grouping to Indian grouping: app/domain/formatting.py, over ASCII text. */
module Regrouping {
  import opened Wrappers
  import opened Characters

  /** `[\d,]`. */
  predicate InRun(c: char) {
    IsDigit(c) || c == ','
  }

  predicate AllInRun(s: string) {
    forall k :: 0 <= k < |s| ==> InRun(s[k])
  }

  /** How many leading characters are digits. */
  function Digits(s: string): (n: nat)
    ensures n <= |s|
  {
    if s != "" && IsDigit(s[0]) then 1 + Digits(s[1..]) else 0
  }

  lemma {:induction false} DigitsAre(s: string)
    ensures var n := Digits(s); AllDigits(s[..n]) && (n < |s| ==> !IsDigit(s[n]))
  {
    if s != "" && IsDigit(s[0]) {
      DigitsAre(s[1..]);
      var n := Digits(s);
      assert s[..n] == [s[0]] + s[1..][..n - 1];
    }
  }

  /** How many leading characters are digits or commas. */
  function RunLength(s: string): (n: nat)
    ensures n <= |s|
  {
    if s != "" && InRun(s[0]) then 1 + RunLength(s[1..]) else 0
  }

  lemma {:induction false} RunLengthEnds(s: string)
    ensures var n := RunLength(s); AllInRun(s[..n]) && (n < |s| ==> !InRun(s[n]))
  {
    if s != "" && InRun(s[0]) {
      RunLengthEnds(s[1..]);
      var n := RunLength(s);
      assert s[..n] == [s[0]] + s[1..][..n - 1];
    }
  }

  lemma {:induction false} RunLengthIs(s: string, n: nat)
    requires n <= |s| && AllInRun(s[..n]) && (n < |s| ==> !InRun(s[n]))
    ensures RunLength(s) == n
  {
    if n > 0 {
      assert s[0] == s[..n][0];
      assert s[1..][..n - 1] == s[..n][1..];
      RunLengthIs(s[1..], n - 1);
    }
  }

  // ---- The regular expression ----
  // (?<![\d,]) \d{1,3} (?:,\d{3})+ (?:\.\d+)? (?![\d,]), matched at the start of `s` with the engine's backtracking order.
  // Results are match lengths.

  /** `(?![\d,])`. */
  predicate Ahead(s: string) {
    s == "" || !InRun(s[0])
  }

  /** `\.\d+` with at most `m` digits, then the lookahead. */
  function TryFraction(s: string, m: nat): Option<nat>
    requires s != "" && m <= |s| - 1
  {
    if m == 0 then None else if Ahead(s[1 + m..]) then Some(1 + m) else TryFraction(s, m - 1)
  }

  /** `(?:\.\d+)?`, then the lookahead. */
  function TryTail(s: string): Option<nat> {
    var f := if s != "" && s[0] == '.' then TryFraction(s, Digits(s[1..])) else None;
    if f.Some? then f else if Ahead(s) then Some(0) else None
  }

  /** How often `,\d{3}` repeats. */
  function GroupCount(s: string): (n: nat)
    ensures 4 * n <= |s|
  {
    if |s| >= 4 && s[0] == ',' && AllDigits(s[1..4]) then 1 + GroupCount(s[4..]) else 0
  }

  /** `(?:,\d{3})+` with at most `n` repetitions, then the tail. */
  function TryGroups(s: string, n: nat): Option<nat>
    requires 4 * n <= |s|
  {
    if n == 0 then None else
      var t := TryTail(s[4 * n..]);
      if t.Some? then Some(4 * n + t.value) else TryGroups(s, n - 1)
  }

  /** `\d{1,3}` with at most `d` digits, then the groups. */
  function TryLead(s: string, d: nat): Option<nat> {
    if d == 0 then None
    else if d <= |s| && AllDigits(s[..d]) then
      var g := TryGroups(s[d..], GroupCount(s[d..]));
      if g.Some? then Some(d + g.value) else TryLead(s, d - 1)
    else TryLead(s, d - 1)
  }

  function Match(s: string): Option<nat> {
    TryLead(s, 3)
  }

  // ---- Indian grouping ----

  function RemoveCommas(s: string): string {
    if s == "" then "" else (if s[0] == ',' then "" else [s[0]]) + RemoveCommas(s[1..])
  }

  /** `re.sub(r"(\d)(?=(\d\d)+$)", r"\1,", rest)`: a comma after each digit that an even, positive number of digits follows. */
  function CommaPairs(rest: string): string {
    if rest == "" then ""
    else [rest[0]] + (if |rest| > 1 && (|rest| - 1) % 2 == 0 then "," else "") + CommaPairs(rest[1..])
  }

  function IndianGrouping(digits: string): string {
    if |digits| <= 3 then digits
    else CommaPairs(digits[..|digits| - 3]) + "," + digits[|digits| - 3..]
  }

  function WholeLength(m: string): (n: nat)
    ensures n <= |m|
  {
    if m == "" || m[0] == '.' then 0 else 1 + WholeLength(m[1..])
  }

  /** The replacement of one match: its whole part regrouped, its fraction kept. */
  function Replacement(m: string): string {
    var n := WholeLength(m);
    IndianGrouping(RemoveCommas(m[..n])) + m[n..]
  }

  /** `re.sub` on the rest `s` of a text, for a pattern that cannot match right after a run character; `after` says that the
      character before `s` is one. `match_` gives match lengths. */
  function Sub(match_: string -> Option<nat>, repl: string -> string, after: bool, s: string): string
    decreases |s|
  {
    if s == "" then ""
    else
      var m := if after then None else match_(s);
      if m.Some? && 0 < m.value <= |s| then
        repl(s[..m.value]) + Sub(match_, repl, InRun(s[m.value - 1]), s[m.value..])
      else [s[0]] + Sub(match_, repl, InRun(s[0]), s[1..])
  }

  function RegroupWesternNumbers(text: string): string {
    Sub(Match, Replacement, false, text)
  }

  // ---- The same, run by run ----

  predicate WesternAt(r: string, d: nat) {
    1 <= d <= 3 && d < |r| && AllDigits(r[..d]) && |r| - d == 4 * GroupCount(r[d..])
  }

  /** One to three digits, then one or more groups of a comma and three digits. */
  predicate IsWestern(r: string) {
    WesternAt(r, 1) || WesternAt(r, 2) || WesternAt(r, 3)
  }

  function RewriteRun(r: string): string {
    if IsWestern(r) then IndianGrouping(RemoveCommas(r)) else r
  }

  /** Each maximal run of digits and commas is rewritten, everything else is kept. */
  function MapRuns(rewrite: string -> string, text: string): string
    decreases |text|
  {
    if text == "" then ""
    else if !InRun(text[0]) then [text[0]] + MapRuns(rewrite, text[1..])
    else var n := RunLength(text); rewrite(text[..n]) + MapRuns(rewrite, text[n..])
  }

  /** Each maximal run is rewritten if it is Western-grouped. */
  function RegroupRuns(text: string): string {
    MapRuns(RewriteRun, text)
  }

  // ---- The matcher finds whole runs ----

  lemma {:induction false} GroupCountAt(s: string, k: nat)
    requires k <= GroupCount(s)
    ensures GroupCount(s[4 * k..]) == GroupCount(s) - k && AllInRun(s[..4 * k])
    ensures k < GroupCount(s) ==> s[4 * k] == ','
  {
    if k > 0 {
      GroupCountAt(s[4..], k - 1);
      assert s[4..][4 * (k - 1)..] == s[4 * k..];
      assert s[..4 * k] == s[..4] + s[4..][..4 * (k - 1)];
      assert s[..4] == [s[0]] + s[1..4];
    } else {
      assert s[0..] == s;
    }
  }

  lemma {:induction false} TryFractionMeaning(s: string, m: nat)
    requires s != "" && m <= Digits(s[1..])
    ensures TryFraction(s, m).Some? <==> m > 0 && m == Digits(s[1..]) && Ahead(s[1 + m..])
    ensures TryFraction(s, m).Some? ==> TryFraction(s, m).value == 1 + m
  {
    if m > 0 {
      TryFractionMeaning(s, m - 1);
      DigitsAre(s[1..]);
      if m < Digits(s[1..]) {
        assert s[1..][..Digits(s[1..])][m] == s[1 + m];
      }
    }
  }

  /** The fraction that follows a run and is not itself part of a longer run. */
  predicate HasFraction(s: string) {
    s != "" && s[0] == '.' && Digits(s[1..]) > 0 && Ahead(s[1 + Digits(s[1..])..])
  }

  lemma TryTailMeaning(s: string)
    ensures TryTail(s).Some? <==> Ahead(s)
    ensures TryTail(s).Some? ==> TryTail(s).value == if HasFraction(s) then 1 + Digits(s[1..]) else 0
  {
    if s != "" && s[0] == '.' {
      TryFractionMeaning(s, Digits(s[1..]));
    }
  }

  lemma {:induction false} TryGroupsMeaning(s: string, n: nat)
    requires n <= GroupCount(s)
    ensures TryGroups(s, n).Some? <==> n > 0 && n == GroupCount(s) && Ahead(s[4 * n..])
    ensures TryGroups(s, n).Some? ==>
      TryGroups(s, n).value == 4 * n + if HasFraction(s[4 * n..]) then 1 + Digits(s[4 * n..][1..]) else 0
  {
    if n > 0 {
      TryGroupsMeaning(s, n - 1);
      TryTailMeaning(s[4 * n..]);
      GroupCountAt(s, n);
    }
  }

  function FractionLength(s: string): nat {
    if HasFraction(s) then 1 + Digits(s[1..]) else 0
  }

  /** How far a match reaches: the whole run, and a fraction if one follows. */
  function Reach(s: string): nat {
    RunLength(s) + FractionLength(s[RunLength(s)..])
  }

  /** With a leading group of `d` digits, the run is Western exactly when it ends where the groups of three end. */
  lemma WesternEnds(s: string, d: nat, c: nat, n: nat)
    requires 1 <= d <= 3 && d <= |s| && AllDigits(s[..d]) && c == GroupCount(s[d..]) && n == RunLength(s)
    ensures WesternAt(s[..n], d) <==> c > 0 && n == d + 4 * c
    ensures n == d + 4 * c <==> Ahead(s[d + 4 * c..])
  {
    GroupCountAt(s[d..], c);
    GroupsInRun(s, d, c);
    var k := d + 4 * c;
    if Ahead(s[k..]) {
      RunLengthIs(s, k);
      YesWestern(s, d);
    } else {
      LongerRun(s, k);
      NotWestern(s, d);
    }
  }

  lemma GroupsInRun(s: string, d: nat, c: nat)
    requires d <= |s| && AllDigits(s[..d]) && 4 * c <= |s| - d && AllInRun(s[d..][..4 * c])
    ensures AllInRun(s[..d + 4 * c])
  {
    assert s[..d + 4 * c] == s[..d] + s[d..][..4 * c];
  }

  lemma YesWestern(s: string, d: nat)
    requires 1 <= d <= 3 && d <= |s| && AllDigits(s[..d])
    ensures var c := GroupCount(s[d..]); WesternAt(s[..d + 4 * c], d) <==> c > 0
  {
    var c := GroupCount(s[d..]);
    var r := s[..d + 4 * c];
    assert r[d..] == s[d..][..4 * c] && r[..d] == s[..d];
    GroupCountPrefix(s[d..], c);
  }

  lemma NotWestern(s: string, d: nat)
    requires d <= |s| && RunLength(s) > d + 4 * GroupCount(s[d..])
    ensures !WesternAt(s[..RunLength(s)], d)
  {
    LongerThanGroups(s, d, RunLength(s), GroupCount(s[d..]));
  }

  lemma LongerThanGroups(s: string, d: nat, n: nat, c: nat)
    requires d <= n <= |s| && n - d > 4 * c && c == GroupCount(s[d..])
    ensures !WesternAt(s[..n], d)
  {
    assert s[..n][d..] == s[d..][..n - d];
    GroupCountWithin(s[d..], n - d);
  }

  lemma LongerRun(s: string, k: nat)
    requires k <= |s| && AllInRun(s[..k]) && !Ahead(s[k..])
    ensures RunLength(s) > k
  {
    forall j | 0 <= j <= k ensures InRun(s[j]) {
      assert j < k ==> s[..k][j] == s[j];
      assert s[k..][0] == s[k];
    }
    RunLengthEnds(s);
  }

  lemma LeadMeaning(s: string, d: nat)
    requires 1 <= d <= 3 && d <= |s| && AllDigits(s[..d])
    ensures TryGroups(s[d..], GroupCount(s[d..])).Some? <==> WesternAt(s[..RunLength(s)], d)
    ensures TryGroups(s[d..], GroupCount(s[d..])).Some? ==> d + TryGroups(s[d..], GroupCount(s[d..])).value == Reach(s)
  {
    var t := s[d..];
    var c := GroupCount(t);
    TryGroupsMeaning(t, c);
    WesternEnds(s, d, c, RunLength(s));
    assert t[4 * c..] == s[d + 4 * c..];
  }

  /** `TryLead` at a length that may not even be there. */
  lemma LeadCases(s: string, d: nat)
    requires 1 <= d <= 3
    ensures WesternAt(s[..RunLength(s)], d) <==>
      d <= |s| && AllDigits(s[..d]) && TryGroups(s[d..], GroupCount(s[d..])).Some?
    ensures d <= |s| && AllDigits(s[..d]) && TryGroups(s[d..], GroupCount(s[d..])).Some? ==>
      d + TryGroups(s[d..], GroupCount(s[d..])).value == Reach(s)
  {
    var r := s[..RunLength(s)];
    assert d <= |r| ==> r[..d] == s[..d];
    if d <= |s| && AllDigits(s[..d]) {
      LeadMeaning(s, d);
    }
  }

  lemma {:induction false} GroupCountPrefix(s: string, c: nat)
    requires c <= GroupCount(s)
    ensures GroupCount(s[..4 * c]) == c
  {
    if c > 0 {
      GroupCountPrefix(s[4..], c - 1);
      assert s[..4 * c][4..] == s[4..][..4 * (c - 1)];
      assert s[..4 * c][1..4] == s[1..4];
    }
  }

  lemma {:induction false} GroupCountWithin(s: string, k: nat)
    requires k <= |s|
    ensures GroupCount(s[..k]) <= GroupCount(s)
  {
    if GroupCount(s[..k]) > 0 {
      assert s[..k][1..4] == s[1..4] && s[..k][4..] == s[4..][..k - 4];
      GroupCountWithin(s[4..], k - 4);
    }
  }

  lemma MatchMeaning(s: string)
    ensures Match(s).Some? <==> IsWestern(s[..RunLength(s)])
    ensures Match(s).Some? ==> Match(s).value == Reach(s)
  {
    LeadCases(s, 1);
    LeadCases(s, 2);
    LeadCases(s, 3);
    assert TryLead(s, 1) == if WesternAt(s[..RunLength(s)], 1) then Some(Reach(s)) else None;
    assert TryLead(s, 2) == if WesternAt(s[..RunLength(s)], 2) then Some(Reach(s)) else TryLead(s, 1);
  }

  // ---- The matcher refines the run-by-run form ----

  /** The matcher matches where a run of the given kind starts, and reaches over it and a fraction. */
  ghost predicate IsMatcher(match_: string -> Option<nat>, kind: string -> bool) {
    forall s :: match_(s) == if kind(s[..RunLength(s)]) then Some(Reach(s)) else None
  }

  predicate Replaces(repl: string -> string, rewrite: string -> string, r: string, f: string) {
    repl(r + f) == rewrite(r) + f
  }

  /** The replacement of a matched run with its fraction is the rewritten run and the fraction; other runs stay. */
  ghost predicate IsRewrite(repl: string -> string, rewrite: string -> string, kind: string -> bool) {
    && (forall r, f {:trigger Replaces(repl, rewrite, r, f)} ::
          kind(r) && AllInRun(r) && (f == "" || f[0] == '.') ==> Replaces(repl, rewrite, r, f))
    && (forall r :: !kind(r) ==> rewrite(r) == r)
    && (forall r :: AllDigits(r) ==> !kind(r))
  }

  /** Inside a run nothing can match, so the rest of the run is copied. */
  lemma {:induction false} SubInside(match_: string -> Option<nat>, repl: string -> string, a: string, b: string)
    requires AllInRun(a)
    ensures Sub(match_, repl, true, a + b) == a + Sub(match_, repl, true, b)
  {
    if a == "" {
      assert a + b == b;
    } else {
      SubInside(match_, repl, a[1..], b);
      assert (a + b)[1..] == a[1..] + b;
      assert (a + b)[0] == a[0];
    }
  }

  /** Right after a run, at a place where nothing matches anyway, matching resumes as if nothing came before. */
  lemma SubAfterRun(match_: string -> Option<nat>, repl: string -> string, b: string)
    requires b != "" ==> match_(b).None?
    ensures Sub(match_, repl, true, b) == Sub(match_, repl, false, b)
  {
  }

  lemma NoMatchOutside(match_: string -> Option<nat>, kind: string -> bool, b: string)
    requires IsMatcher(match_, kind) && !kind("") && Ahead(b)
    ensures match_(b).None?
  {
    assert b[..RunLength(b)] == "";
  }

  lemma RunOf(a: string, b: string)
    requires AllInRun(a) && Ahead(b)
    ensures RunLength(a + b) == |a| && (a + b)[..|a|] == a && (a + b)[|a|..] == b
  {
    RunLengthIs(a + b, |a|);
  }

  /** Where nothing matches, a run is copied. */
  lemma SubUnmatched(match_: string -> Option<nat>, repl: string -> string, a: string, b: string)
    requires a != "" && AllInRun(a) && match_(a + b).None? && (b != "" ==> match_(b).None?)
    ensures Sub(match_, repl, false, a + b) == a + Sub(match_, repl, false, b)
  {
    SubAfterRun(match_, repl, b);
    SubInside(match_, repl, a[1..], b);
    assert (a + b)[1..] == a[1..] + b && (a + b)[0] == a[0];
    assert a == [a[0]] + a[1..];
  }

  /** A match is replaced. */
  lemma SubMatched(match_: string -> Option<nat>, repl: string -> string, m: string, b: string)
    requires m != "" && match_(m + b) == Some(|m|) && InRun(m[|m| - 1]) && (b != "" ==> match_(b).None?)
    ensures Sub(match_, repl, false, m + b) == repl(m) + Sub(match_, repl, false, b)
  {
    SubAfterRun(match_, repl, b);
    assert (m + b)[..|m|] == m && (m + b)[|m|..] == b;
    assert (m + b)[|m| - 1] == m[|m| - 1];
  }

  lemma FractionFits(b: string)
    requires Ahead(b)
    ensures FractionLength(b) <= |b| && Ahead(b[FractionLength(b)..])
    ensures var f := b[..FractionLength(b)]; f == "" || (f[0] == '.' && |f| > 1 && AllDigits(f[1..]) && InRun(f[|f| - 1]))
  {
    if HasFraction(b) {
      var n := Digits(b[1..]);
      DigitsAre(b[1..]);
      assert b[1 + n..] == b[1..][n..];
      var f := b[..1 + n];
      assert f[1..] == b[1..][..n];
      assert f[|f| - 1] == f[1..][n - 1];
    } else {
      assert b[0..] == b;
    }
  }

  lemma MapChar(rewrite: string -> string, c: char, s: string)
    requires !InRun(c)
    ensures MapRuns(rewrite, [c] + s) == [c] + MapRuns(rewrite, s)
  {
    assert ([c] + s)[1..] == s;
  }

  /** A fraction is kept by the run-by-run form. */
  lemma FractionKept(rewrite: string -> string, f: string, rest: string)
    requires f == "" || (f[0] == '.' && |f| > 1 && AllDigits(f[1..]) && Ahead(rest) && rewrite(f[1..]) == f[1..])
    ensures MapRuns(rewrite, f + rest) == f + MapRuns(rewrite, rest)
  {
    if f == "" {
      assert f + rest == rest;
    } else {
      var digits := f[1..];
      DotFirst(f, rest);
      MapChar(rewrite, '.', digits + rest);
      MapRun(rewrite, digits, rest);
      DotFirst(f, MapRuns(rewrite, rest));
    }
  }

  lemma DotFirst(f: string, rest: string)
    requires f != "" && f[0] == '.'
    ensures f + rest == ['.'] + (f[1..] + rest)
  {
  }

  lemma MapRun(rewrite: string -> string, a: string, b: string)
    requires AllInRun(a) && a != "" && Ahead(b)
    ensures MapRuns(rewrite, a + b) == rewrite(a) + MapRuns(rewrite, b)
  {
    RunOf(a, b);
    assert (a + b)[0] == a[0];
  }

  /** A matched run and its fraction are replaced as the two forms agree to, if they agree on what follows. */
  lemma MatchedAlike(match_: string -> Option<nat>, repl: string -> string, rewrite: string -> string, a: string, f: string, rest: string)
    requires a != "" && AllInRun(a) && Ahead(f + rest)
    requires f == "" || (f[0] == '.' && |f| > 1 && AllDigits(f[1..]) && Ahead(rest) && rewrite(f[1..]) == f[1..])
    requires InRun((a + f)[|a + f| - 1]) && match_(a + f + rest) == Some(|a + f|) && (rest != "" ==> match_(rest).None?)
    requires repl(a + f) == rewrite(a) + f && Sub(match_, repl, false, rest) == MapRuns(rewrite, rest)
    ensures Sub(match_, repl, false, a + f + rest) == MapRuns(rewrite, a + (f + rest))
  {
    SubMatched(match_, repl, a + f, rest);
    MapRun(rewrite, a, f + rest);
    MatchedStep(rewrite, rewrite(a), f, rest);
  }

  /** Where a matched run, its fraction and the rest lie. */
  lemma MatchParts(a: string, f: string, rest: string)
    requires a != "" && AllInRun(a) && Ahead(f + rest) && |f| == FractionLength(f + rest)
    ensures RunLength(a + f + rest) == |a| && (a + f + rest)[..|a|] == a && Reach(a + f + rest) == |a + f|
    ensures Ahead(rest) && (f == "" || (f[0] == '.' && |f| > 1 && AllDigits(f[1..]))) && InRun((a + f)[|a + f| - 1])
  {
    FractionParts(f, rest);
    ReachOf(a, f + rest);
    assert a + (f + rest) == a + f + rest;
    LastOf(a, f);
  }

  lemma FractionParts(f: string, rest: string)
    requires Ahead(f + rest) && |f| == FractionLength(f + rest)
    ensures Ahead(rest) && (f == "" || (f[0] == '.' && |f| > 1 && AllDigits(f[1..]) && InRun(f[|f| - 1])))
  {
    FractionFits(f + rest);
    assert (f + rest)[..|f|] == f && (f + rest)[|f|..] == rest;
  }

  /** A run that matches, given that the two forms agree on what follows its fraction. */
  lemma MatchingRun(match_: string -> Option<nat>, repl: string -> string, rewrite: string -> string, kind: string -> bool,
                    a: string, f: string, rest: string)
    requires IsMatcher(match_, kind) && IsRewrite(repl, rewrite, kind) && !kind("")
    requires kind(a) && a != "" && AllInRun(a) && Ahead(f + rest) && |f| == FractionLength(f + rest)
    requires Sub(match_, repl, false, rest) == MapRuns(rewrite, rest)
    ensures Sub(match_, repl, false, a + f + rest) == MapRuns(rewrite, a + (f + rest))
  {
    MatchParts(a, f, rest);
    MatcherAt(match_, kind, a + f + rest);
    RewriteAt(repl, rewrite, kind, a, f);
    NoMatchOutside(match_, kind, rest);
    DigitsKept(repl, rewrite, kind, f);
    MatchedAlike(match_, repl, rewrite, a, f, rest);
  }

  lemma DigitsKept(repl: string -> string, rewrite: string -> string, kind: string -> bool, f: string)
    requires IsRewrite(repl, rewrite, kind) && (f == "" || AllDigits(f[1..]))
    ensures f == "" || rewrite(f[1..]) == f[1..]
  {
  }

  /** A run that does not match. */
  lemma OtherRun(match_: string -> Option<nat>, repl: string -> string, rewrite: string -> string, kind: string -> bool,
                 a: string, b: string)
    requires IsMatcher(match_, kind) && IsRewrite(repl, rewrite, kind) && !kind("")
    requires !kind(a) && a != "" && AllInRun(a) && Ahead(b)
    requires Sub(match_, repl, false, b) == MapRuns(rewrite, b)
    ensures Sub(match_, repl, false, a + b) == MapRuns(rewrite, a + b)
  {
    RunOf(a, b);
    NoMatchOutside(match_, kind, b);
    assert match_(a + b).None?;
    SubUnmatched(match_, repl, a, b);
    MapRun(rewrite, a, b);
  }

  /** A text as a run, the fraction that may follow it, and the rest. */
  ghost predicate IsSplit(s: string, a: string, f: string, rest: string) {
    && s == a + (f + rest) == a + f + rest && a != "" && AllInRun(a)
    && Ahead(f + rest) && |f| == FractionLength(f + rest)
  }

  lemma SplitRun(s: string) returns (a: string, f: string, rest: string)
    requires s != "" && InRun(s[0])
    ensures IsSplit(s, a, f, rest)
  {
    RunLengthEnds(s);
    var b := s[RunLength(s)..];
    a := s[..RunLength(s)];
    f, rest := SplitFraction(b);
    assert s == a + b;
  }

  lemma SplitFraction(b: string) returns (f: string, rest: string)
    requires Ahead(b)
    ensures b == f + rest && |f| == FractionLength(b)
  {
    FractionFits(b);
    f, rest := b[..FractionLength(b)], b[FractionLength(b)..];
  }

  /** The engine's substitution is the run-by-run rewriting. */
  lemma {:induction false} SubIsMapRuns(match_: string -> Option<nat>, repl: string -> string, rewrite: string -> string,
                                        kind: string -> bool, s: string)
    requires IsMatcher(match_, kind) && IsRewrite(repl, rewrite, kind) && !kind("")
    ensures Sub(match_, repl, false, s) == MapRuns(rewrite, s)
    decreases |s|
  {
    if s == "" {
    } else if !InRun(s[0]) {
      NoMatchOutside(match_, kind, s);
      SubIsMapRuns(match_, repl, rewrite, kind, s[1..]);
    } else {
      var a, f, rest := SplitRun(s);
      if kind(a) {
        SubIsMapRuns(match_, repl, rewrite, kind, rest);
        MatchingRun(match_, repl, rewrite, kind, a, f, rest);
      } else {
        SubIsMapRuns(match_, repl, rewrite, kind, f + rest);
        OtherRun(match_, repl, rewrite, kind, a, f + rest);
      }
    }
  }

  /** The fraction after a matched run is copied, and the rest goes on. */
  lemma MatchedStep(rewrite: string -> string, r: string, f: string, rest: string)
    requires f == "" || (f[0] == '.' && |f| > 1 && AllDigits(f[1..]) && Ahead(rest) && rewrite(f[1..]) == f[1..])
    ensures r + f + MapRuns(rewrite, rest) == r + MapRuns(rewrite, f + rest)
  {
    FractionKept(rewrite, f, rest);
    assert r + f + MapRuns(rewrite, rest) == r + (f + MapRuns(rewrite, rest));
  }

  lemma ReachOf(a: string, b: string)
    requires AllInRun(a) && Ahead(b)
    ensures RunLength(a + b) == |a| && (a + b)[..|a|] == a && Reach(a + b) == |a| + FractionLength(b)
  {
    RunOf(a, b);
  }

  lemma LastOf(a: string, f: string)
    requires a != "" && AllInRun(a) && (f == "" || InRun(f[|f| - 1]))
    ensures InRun((a + f)[|a + f| - 1])
  {
    if f == "" {
      assert a + f == a;
    }
  }

  lemma MatcherAt(match_: string -> Option<nat>, kind: string -> bool, s: string)
    requires IsMatcher(match_, kind) && kind(s[..RunLength(s)])
    ensures match_(s) == Some(Reach(s))
  {
  }

  lemma RewriteAt(repl: string -> string, rewrite: string -> string, kind: string -> bool, a: string, f: string)
    requires IsRewrite(repl, rewrite, kind) && kind(a) && AllInRun(a) && (f == "" || f[0] == '.')
    ensures repl(a + f) == rewrite(a) + f
  {
    assert Replaces(repl, rewrite, a, f);
  }

  // ---- The two forms agree ----

  lemma {:induction false} WholePart(r: string, f: string)
    requires AllInRun(r) && (f == "" || f[0] == '.')
    ensures WholeLength(r + f) == |r|
  {
    if r == "" {
      assert r + f == f;
    } else {
      WholePart(r[1..], f);
      assert (r + f)[1..] == r[1..] + f && (r + f)[0] == r[0];
    }
  }

  lemma DigitsNotWestern(r: string)
    requires AllDigits(r)
    ensures !IsWestern(r)
  {
    forall d: nat | d < |r| ensures GroupCount(r[d..]) == 0 {
      assert r[d..][0] == r[d];
    }
  }

  /** The regular expression rewrites exactly the maximal runs of digits and commas that are Western-grouped, fraction or not. */
  lemma RegroupIsByRuns(text: string)
    ensures RegroupWesternNumbers(text) == RegroupRuns(text)
  {
    forall s ensures Match(s) == if IsWestern(s[..RunLength(s)]) then Some(Reach(s)) else None {
      MatchMeaning(s);
    }
    forall r, f | IsWestern(r) && AllInRun(r) && (f == "" || f[0] == '.') ensures Replacement(r + f) == RewriteRun(r) + f {
      WholePart(r, f);
      assert (r + f)[..|r|] == r && (r + f)[|r|..] == f;
    }
    forall r | AllDigits(r) ensures !IsWestern(r) {
      DigitsNotWestern(r);
    }
    DigitsNotWestern("");
    SubIsMapRuns(Match, Replacement, RewriteRun, IsWestern, text);
  }

  // ---- Indian grouping ----

  lemma {:induction false} RemoveCommasDigits(r: string)
    requires AllInRun(r)
    ensures AllDigits(RemoveCommas(r)) && |RemoveCommas(r)| <= |r|
    ensures AllDigits(r) ==> RemoveCommas(r) == r
  {
    if r != "" {
      RemoveCommasDigits(r[1..]);
      assert r == [r[0]] + r[1..];
    }
  }

  lemma RemoveCommasFirst(c: char, t: string)
    ensures RemoveCommas([c] + t) == (if c == ',' then "" else [c]) + RemoveCommas(t)
  {
    assert ([c] + t)[1..] == t;
  }

  lemma {:induction false} RemoveCommasAppend(a: string, b: string)
    ensures RemoveCommas(a + b) == RemoveCommas(a) + RemoveCommas(b)
  {
    if a == "" {
      assert a + b == b;
    } else {
      RemoveCommasAppend(a[1..], b);
      assert a + b == [a[0]] + (a[1..] + b);
      RemoveCommasFirst(a[0], a[1..] + b);
    }
  }

  /** One or two digits, then groups of a comma and two digits. */
  predicate IsPaired(h: string) {
    if |h| <= 2 then h != "" && AllDigits(h)
    else |h| >= 4 && h[|h| - 3] == ',' && AllDigits(h[|h| - 2..]) && IsPaired(h[..|h| - 3])
  }

  /** Last group of three digits, inner groups of two, first group of one or two. */
  predicate IsIndian(s: string) {
    |s| >= 5 && s[|s| - 4] == ',' && AllDigits(s[|s| - 3..]) && IsPaired(s[..|s| - 4])
  }

  lemma {:induction false} CommaPairsMeaning(d: string)
    requires AllDigits(d)
    ensures RemoveCommas(CommaPairs(d)) == d && AllInRun(CommaPairs(d)) && (d != "" ==> CommaPairs(d) != "")
  {
    if d != "" {
      CommaPairsMeaning(d[1..]);
      assert d == [d[0]] + d[1..];
      var comma := if |d| > 1 && (|d| - 1) % 2 == 0 then "," else "";
      DigitAndComma(d[0], comma, CommaPairs(d[1..]));
      assert CommaPairs(d) == [d[0]] + comma + CommaPairs(d[1..]);
    }
  }

  lemma DigitAndComma(c: char, comma: string, rest: string)
    requires IsDigit(c) && comma in ["", ","]
    ensures RemoveCommas([c] + comma + rest) == [c] + RemoveCommas(rest)
    ensures AllInRun(rest) ==> AllInRun([c] + comma + rest)
  {
    var s := [c] + comma + rest;
    assert s[1..] == comma + rest;
    if comma == "" {
      assert comma + rest == rest;
    } else {
      assert s[1..][1..] == rest;
    }
  }

  /** The pairs seen from the right. */
  lemma {:induction false} CommaPairsLast(d: string)
    requires AllDigits(d) && |d| >= 3
    ensures CommaPairs(d) == CommaPairs(d[..|d| - 2]) + "," + d[|d| - 2..]
  {
    var n := |d|;
    if n == 3 {
      assert d == [d[0], d[1], d[2]];
      assert d[1..] == [d[1], d[2]] && d[1..][1..] == [d[2]] && d[..1] == [d[0]] && d[..1][1..] == "" && [d[2]][1..] == "";
      assert CommaPairs([d[2]]) == [d[2]];
      assert CommaPairs(d[1..]) == [d[1]] + [d[2]];
    } else {
      CommaPairsLast(d[1..]);
      assert d[1..][..n - 3] == d[..n - 2][1..] && d[1..][n - 3..] == d[n - 2..];
      assert (n - 1) % 2 == 0 <==> (n - 3) % 2 == 0;
      assert |d[..n - 2]| == n - 2;
    }
  }

  lemma CommaPairsShort(d: string)
    requires 1 <= |d| <= 2
    ensures CommaPairs(d) == d
  {
    if |d| == 2 {
      CommaPairsShort(d[1..]);
      assert d == [d[0]] + d[1..];
    }
  }

  lemma {:induction false} CommaPairsPaired(d: string)
    requires AllDigits(d) && d != ""
    ensures IsPaired(CommaPairs(d))
  {
    if |d| <= 2 {
      CommaPairsShort(d);
    } else {
      CommaPairsLast(d);
      CommaPairsPaired(d[..|d| - 2]);
      CommaPairsMeaning(d[..|d| - 2]);
      var h := CommaPairs(d);
      assert h[..|h| - 3] == CommaPairs(d[..|d| - 2]) && h[|h| - 2..] == d[|d| - 2..];
    }
  }

  lemma IndianGroupingMeaning(d: string)
    requires AllDigits(d)
    ensures RemoveCommas(IndianGrouping(d)) == d && AllInRun(IndianGrouping(d))
    ensures |d| > 3 ==> IsIndian(IndianGrouping(d))
    ensures d != "" ==> IndianGrouping(d) != ""
  {
    if |d| > 3 {
      var a, b := d[..|d| - 3], d[|d| - 3..];
      CommaPairsMeaning(a);
      CommaPairsPaired(a);
      SplitCommas(CommaPairs(a), b);
      assert a + b == d;
      ThreeAtEnd(CommaPairs(a), b);
    } else {
      RemoveCommasDigits(d);
    }
  }

  lemma ThreeAtEnd(h: string, b: string)
    requires IsPaired(h) && AllInRun(h) && |b| == 3 && AllDigits(b)
    ensures IsIndian(h + "," + b) && AllInRun(h + "," + b)
  {
    var s := h + "," + b;
    assert s[..|s| - 4] == h && s[|s| - 3..] == b;
  }

  /** The head and the last three digits of an Indian-grouped number. */
  lemma IndianParts(s: string)
    requires IsIndian(s)
    ensures var a, b := s[..|s| - 4], s[|s| - 3..];
      s == a + "," + b && RemoveCommas(s) == RemoveCommas(a) + b && |b| == 3
  {
    var a, b := s[..|s| - 4], s[|s| - 3..];
    assert s == a + "," + b;
    SplitCommas(a, b);
  }

  lemma SameParts(x: string, b: string, y: string, d: string)
    requires x + b == y + d && |b| == |d|
    ensures x == y && b == d
  {
    assert |x| == |y|;
    assert x == (x + b)[..|x|] == (y + d)[..|y|] == y;
    assert b == (x + b)[|x|..] == (y + d)[|y|..] == d;
  }

  /** Indian grouping of a number is unique. */
  lemma IndianUnique(s: string, t: string)
    requires IsIndian(s) && IsIndian(t) && RemoveCommas(s) == RemoveCommas(t)
    ensures s == t
  {
    IndianParts(s);
    IndianParts(t);
    SameParts(RemoveCommas(s[..|s| - 4]), s[|s| - 3..], RemoveCommas(t[..|t| - 4]), t[|t| - 3..]);
    PairedUnique(s[..|s| - 4], t[..|t| - 4]);
  }

  lemma SplitCommas(a: string, b: string)
    requires AllDigits(b)
    ensures RemoveCommas(a + "," + b) == RemoveCommas(a) + b
  {
    RemoveCommasAppend(a + ",", b);
    RemoveCommasAppend(a, ",");
    assert RemoveCommas(",") == "";
    RemoveCommasDigits(b);
  }

  lemma {:induction false} PairedUnique(a: string, c: string)
    requires IsPaired(a) && IsPaired(c) && RemoveCommas(a) == RemoveCommas(c)
    ensures a == c
    decreases |a|
  {
    PairedDigits(a);
    PairedDigits(c);
    if |a| > 2 && |c| > 2 {
      var (p, q) := (a[..|a| - 3], a[|a| - 2..]);
      var (r, t) := (c[..|c| - 3], c[|c| - 2..]);
      assert a == p + "," + q && c == r + "," + t;
      SplitCommas(p, q);
      SplitCommas(r, t);
      var n := |RemoveCommas(a)|;
      assert RemoveCommas(p) == RemoveCommas(a)[..n - 2] && q == RemoveCommas(a)[n - 2..];
      assert RemoveCommas(r) == RemoveCommas(c)[..n - 2] && t == RemoveCommas(c)[n - 2..];
      PairedUnique(p, r);
    }
  }

  lemma {:induction false} PairedDigits(a: string)
    requires IsPaired(a)
    ensures if |a| <= 2 then RemoveCommas(a) == a else |RemoveCommas(a)| > 2
  {
    if |a| <= 2 {
      RemoveCommasDigits(a);
    } else {
      var (p, q) := (a[..|a| - 3], a[|a| - 2..]);
      assert a == p + "," + q;
      SplitCommas(p, q);
      PairedDigits(p);
    }
  }

  // ---- What regrouping achieves ----

  /** A rewriting of runs that yields runs, keeps the digits, and has nothing left to do the second time. */
  ghost predicate IsNormalizer(rewrite: string -> string) {
    forall r :: AllInRun(r) && r != "" ==>
      AllInRun(rewrite(r)) && rewrite(r) != "" && rewrite(rewrite(r)) == rewrite(r) && RemoveCommas(rewrite(r)) == RemoveCommas(r)
  }

  lemma RewriteRunNormalizes()
    ensures IsNormalizer(RewriteRun)
  {
    forall r | AllInRun(r) && r != ""
      ensures AllInRun(RewriteRun(r)) && RewriteRun(r) != "" && RewriteRun(RewriteRun(r)) == RewriteRun(r)
      ensures RemoveCommas(RewriteRun(r)) == RemoveCommas(r)
    {
      RemoveCommasDigits(r);
      if IsWestern(r) {
        WesternLong(r);
        IndianGroupingMeaning(RemoveCommas(r));
      }
    }
  }

  lemma WesternLong(r: string)
    requires AllInRun(r) && IsWestern(r)
    ensures |RemoveCommas(r)| > 3
  {
    if WesternAt(r, 1) {
      WesternAtLong(r, 1);
    } else if WesternAt(r, 2) {
      WesternAtLong(r, 2);
    } else {
      WesternAtLong(r, 3);
    }
  }

  lemma WesternAtLong(r: string, d: nat)
    requires AllInRun(r) && WesternAt(r, d)
    ensures |RemoveCommas(r)| > 3
  {
    assert r == r[..d] + r[d..];
    RemoveCommasAppend(r[..d], r[d..]);
    RemoveCommasDigits(r[..d]);
    GroupLong(r[d..]);
  }

  lemma GroupLong(t: string)
    requires t != "" && |t| == 4 * GroupCount(t)
    ensures |RemoveCommas(t)| >= 3
  {
    assert t == [t[0]] + (t[1..4] + t[4..]);
    RemoveCommasAppend([t[0]], t[1..4] + t[4..]);
    RemoveCommasAppend(t[1..4], t[4..]);
    RemoveCommasDigits(t[1..4]);
  }

  lemma {:induction false} MapRunsTwice(rewrite: string -> string, s: string)
    requires IsNormalizer(rewrite)
    ensures MapRuns(rewrite, MapRuns(rewrite, s)) == MapRuns(rewrite, s)
    ensures RemoveCommas(MapRuns(rewrite, s)) == RemoveCommas(s)
    ensures Ahead(s) ==> Ahead(MapRuns(rewrite, s))
    decreases |s|
  {
    if s != "" {
      if !InRun(s[0]) {
        MapRunsTwice(rewrite, s[1..]);
        MapChar(rewrite, s[0], MapRuns(rewrite, s[1..]));
        RemoveCommasAppend([s[0]], MapRuns(rewrite, s[1..]));
        RemoveCommasAppend([s[0]], s[1..]);
        assert s == [s[0]] + s[1..];
      } else {
        var n := RunLength(s);
        var a, b := s[..n], s[n..];
        RunLengthEnds(s);
        assert s == a + b && (b != "" ==> b[0] == s[n]);
        MapRunsTwice(rewrite, b);
        MapRun(rewrite, rewrite(a), MapRuns(rewrite, b));
        RemoveCommasAppend(rewrite(a), MapRuns(rewrite, b));
        RemoveCommasAppend(a, b);
      }
    }
  }

  /** Regrouping is idempotent and changes nothing but commas. */
  lemma RegroupIdempotent(text: string)
    ensures RegroupWesternNumbers(RegroupWesternNumbers(text)) == RegroupWesternNumbers(text)
    ensures RemoveCommas(RegroupWesternNumbers(text)) == RemoveCommas(text)
  {
    RegroupIsByRuns(text);
    RegroupIsByRuns(RegroupRuns(text));
    RewriteRunNormalizes();
    MapRunsTwice(RewriteRun, text);
  }

  /** Every rewritten run becomes Indian-grouped, with the same digits; Indian grouping of those digits is unique. */
  lemma RewrittenIsIndian(r: string)
    requires AllInRun(r) && IsWestern(r)
    ensures IsIndian(RewriteRun(r)) && RemoveCommas(RewriteRun(r)) == RemoveCommas(r)
  {
    RemoveCommasDigits(r);
    WesternLong(r);
    IndianGroupingMeaning(RemoveCommas(r));
  }
}
