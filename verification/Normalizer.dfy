/** Question normalization: app/cache/normalizer.py, over ASCII text. */
module Normalizer {
  import opened Characters
  import opened Words
  import opened Prose

  const FILLER_PHRASES: seq<string> := ["please", "can you", "show me", "give me", "what is", "what are", "tell me"]

  type Phrase = seq<string>

  /** The phrases as words. */
  const FILLERS: seq<Phrase> :=
    [["please"], ["can", "you"], ["show", "me"], ["give", "me"], ["what", "is"], ["what", "are"], ["tell", "me"]]

  lemma FillersAreWords()
    ensures |FILLERS| == |FILLER_PHRASES|
    ensures forall k :: 0 <= k < |FILLERS| ==> AllWords(FILLERS[k]) && 1 <= |FILLERS[k]| <= 2 && Join(FILLERS[k]) == FILLER_PHRASES[k]
  {
    forall k | 0 <= k < |FILLERS| ensures Join(FILLERS[k]) == FILLER_PHRASES[k] {
      if |FILLERS[k]| == 2 {
        assert Join(FILLERS[k][1..]) == FILLERS[k][1];
      }
    }
  }

  // ---- The normal form, on words ----

  predicate IsPrefix(p: Phrase, ws: Phrase) {
    p <= ws
  }

  predicate IsSuffix(p: Phrase, ws: Phrase) {
    |p| <= |ws| && ws[|ws| - |p|..] == p
  }

  /** The index of the phrase that `ws` starts with, or |FILLERS|. */
  function LeadingFiller(ws: Phrase, k: nat): nat
    requires k <= |FILLERS|
    decreases |FILLERS| - k
  {
    if k == |FILLERS| || IsPrefix(FILLERS[k], ws) then k else LeadingFiller(ws, k + 1)
  }

  function TrailingFiller(ws: Phrase, k: nat): nat
    requires k <= |FILLERS|
    decreases |FILLERS| - k
  {
    if k == |FILLERS| || IsSuffix(FILLERS[k], ws) then k else TrailingFiller(ws, k + 1)
  }

  lemma LeadingFillerFound(ws: Phrase, k: nat)
    requires k <= |FILLERS|
    ensures var f := LeadingFiller(ws, k);
      k <= f <= |FILLERS| && (f < |FILLERS| ==> IsPrefix(FILLERS[f], ws)) && forall j :: k <= j < f ==> !IsPrefix(FILLERS[j], ws)
    decreases |FILLERS| - k
  {
  }

  lemma TrailingFillerFound(ws: Phrase, k: nat)
    requires k <= |FILLERS|
    ensures var f := TrailingFiller(ws, k);
      k <= f <= |FILLERS| && (f < |FILLERS| ==> IsSuffix(FILLERS[f], ws)) && forall j :: k <= j < f ==> !IsSuffix(FILLERS[j], ws)
    decreases |FILLERS| - k
  {
  }

  /** All fillers stripped from the left. */
  function StripLeft(ws: Phrase): Phrase
    decreases |ws|
  {
    LeadingFillerFound(ws, 0);
    var f := LeadingFiller(ws, 0);
    if f == |FILLERS| then ws else StripLeft(ws[|FILLERS[f]|..])
  }

  function StripRight(ws: Phrase): Phrase
    decreases |ws|
  {
    TrailingFillerFound(ws, 0);
    var f := TrailingFiller(ws, 0);
    if f == |FILLERS| then ws else StripRight(ws[..|ws| - |FILLERS[f]|])
  }

  function NormalForm(ws: Phrase): Phrase {
    StripRight(StripLeft(ws))
  }

  predicate IsFiller(p: Phrase) {
    p in FILLERS
  }

  /** No filler starts or ends the words. */
  predicate IsNormal(ws: Phrase) {
    forall k :: 0 <= k < |FILLERS| ==> !IsPrefix(FILLERS[k], ws) && !IsSuffix(FILLERS[k], ws)
  }

  /** Two fillers never start, or end, the same words, and no filler begins with the second word of another. */
  lemma FillersApart(p: Phrase, q: Phrase, ws: Phrase)
    requires IsFiller(p) && IsFiller(q)
    ensures IsPrefix(p, ws) && IsPrefix(q, ws) ==> p == q
    ensures IsSuffix(p, ws) && IsSuffix(q, ws) ==> p == q
    ensures |p| == 2 ==> p[1] != q[0]
    ensures 1 <= |p| <= 2
  {
    if IsPrefix(p, ws) && IsPrefix(q, ws) {
      assert p[0] == ws[0] == q[0];
      assert |p| == 2 && |q| == 2 ==> p[1] == ws[1] == q[1];
    }
    if IsSuffix(p, ws) && IsSuffix(q, ws) {
      assert p[|p| - 1] == ws[|ws| - 1] == q[|q| - 1];
      assert |p| == 2 && |q| == 2 ==> p[0] == ws[|ws| - 2] == q[0];
    }
  }

  lemma StripLeftStep(p: Phrase, ws: Phrase)
    requires IsFiller(p)
    ensures StripLeft(p + ws) == StripLeft(ws)
  {
    LeadingFillerFound(p + ws, 0);
    var f := LeadingFiller(p + ws, 0);
    assert IsPrefix(p, p + ws);
    var k :| 0 <= k < |FILLERS| && FILLERS[k] == p;
    assert f < |FILLERS|;
    FillersApart(FILLERS[f], p, p + ws);
    assert (p + ws)[|p|..] == ws;
  }

  lemma StripRightStep(ws: Phrase, p: Phrase)
    requires IsFiller(p)
    ensures StripRight(ws + p) == StripRight(ws)
  {
    TrailingFillerFound(ws + p, 0);
    var f := TrailingFiller(ws + p, 0);
    assert IsSuffix(p, ws + p);
    var k :| 0 <= k < |FILLERS| && FILLERS[k] == p;
    assert f < |FILLERS|;
    FillersApart(FILLERS[f], p, ws + p);
    assert (ws + p)[..|ws|] == ws;
  }

  /** Stripping from the left does not see a filler that follows. */
  lemma {:induction false} StripLeftBefore(ws: Phrase, p: Phrase)
    requires IsFiller(p)
    ensures StripLeft(ws + p) == if StripLeft(ws) == [] then [] else StripLeft(ws) + p
    decreases |ws|
  {
    LeadingFillerFound(ws, 0);
    var f := LeadingFiller(ws, 0);
    if f < |FILLERS| {
      var q, rest := FILLERS[f], ws[|FILLERS[f]|..];
      assert ws == q + rest && ws + p == q + (rest + p);
      StripLeftStep(q, rest + p);
      StripLeftBefore(rest, p);
    } else if ws == [] {
      assert ws + p == p + [];
      StripLeftStep(p, []);
    } else {
      LeadingFillerFound(ws + p, 0);
      forall j | 0 <= j < |FILLERS| ensures !IsPrefix(FILLERS[j], ws + p) {
        NoStraddling(FILLERS[j], ws, p);
      }
    }
  }

  lemma NoStraddling(q: Phrase, ws: Phrase, p: Phrase)
    requires IsFiller(q) && IsFiller(p) && ws != [] && !IsPrefix(q, ws)
    ensures !IsPrefix(q, ws + p)
  {
    FillersApart(q, p, ws);
    assert |q| <= |ws| ==> (ws + p)[..|q|] == ws[..|q|];
    assert |ws| == 1 && |q| == 2 ==> (ws + p)[1] == p[0];
  }

  /** Stripping one filler, at either end, does not change the normal form. */
  lemma NormalFormStep(p: Phrase, ws: Phrase)
    requires IsFiller(p)
    ensures NormalForm(p + ws) == NormalForm(ws)
    ensures NormalForm(ws + p) == NormalForm(ws)
  {
    StripLeftStep(p, ws);
    StripLeftBefore(ws, p);
    StripRightStep(StripLeft(ws), p);
  }

  lemma NormalIsFixed(ws: Phrase)
    requires IsNormal(ws)
    ensures NormalForm(ws) == ws
  {
    LeadingFillerFound(ws, 0);
    TrailingFillerFound(ws, 0);
  }

  // ---- Order does not matter ----

  /** One filler removed from one end. */
  ghost predicate Removes(ws: Phrase, ws': Phrase) {
    exists p :: IsFiller(p) && (ws == p + ws' || ws == ws' + p)
  }

  ghost predicate IsReduction(chain: seq<Phrase>) {
    chain != [] && forall k :: 0 <= k < |chain| - 1 ==> Removes(chain[k], chain[k + 1])
  }

  /** However fillers are removed, in any order and from either end, once none is left the result is the normal form. */
  lemma {:induction false} AnyOrderReachesNormalForm(chain: seq<Phrase>)
    requires IsReduction(chain) && IsNormal(chain[|chain| - 1])
    ensures chain[|chain| - 1] == NormalForm(chain[0])
    decreases |chain|
  {
    if |chain| == 1 {
      NormalIsFixed(chain[0]);
    } else {
      var rest := chain[1..];
      forall k | 0 <= k < |rest| - 1 ensures Removes(rest[k], rest[k + 1]) {
        assert Removes(chain[k + 1], chain[k + 1 + 1]);
      }
      AnyOrderReachesNormalForm(rest);
      assert Removes(chain[0], chain[0 + 1]);
      var p :| IsFiller(p) && (chain[0] == p + chain[1] || chain[0] == chain[1] + p);
      NormalFormStep(p, chain[1]);
    }
  }

  // ---- The loop ----

  /** One phrase of one pass of the loop. */
  method StripPhrase(text: string, filler: string) returns (r: string, changed: bool)
    requires filler != ""
    ensures r == StrippedOnce(text, filler) && |r| <= |text| && changed == (|r| < |text|)
  {
    if text == filler {
      return "", true;
    }
    r, changed := text, false;
    var prefix := filler + " ";
    if prefix <= r {
      r := r[|prefix|..];
      changed := true;
    }
    var suffix := " " + filler;
    if EndsWith(r, suffix) {
      r := r[..|r| - |suffix|];
      changed := true;
    }
  }

  function CutPrefix(text: string, filler: string): string {
    if filler + " " <= text then text[|filler| + 1..] else text
  }

  function CutSuffix(text: string, filler: string): string {
    if EndsWith(text, " " + filler) then text[..|text| - |filler| - 1] else text
  }

  function CutPrefixWords(ws: Phrase, p: Phrase): Phrase {
    if p < ws then ws[|p|..] else ws
  }

  function CutSuffixWords(ws: Phrase, p: Phrase): Phrase {
    if |p| < |ws| && IsSuffix(p, ws) then ws[..|ws| - |p|] else ws
  }

  function StrippedOnce(text: string, filler: string): string {
    if text == filler then "" else CutSuffix(CutPrefix(text, filler), filler)
  }

  function StrippedWords(ws: Phrase, p: Phrase): Phrase {
    if ws == p then [] else CutSuffixWords(CutPrefixWords(ws, p), p)
  }

  lemma PrefixTest(ws: Phrase, p: Phrase)
    requires AllWords(ws) && AllWords(p) && p != []
    ensures CutPrefix(Join(ws), Join(p)) == Join(CutPrefixWords(ws, p)) && AllWords(CutPrefixWords(ws, p))
  {
    JoinPrefix(p, ws);
  }

  lemma SuffixTest(ws: Phrase, p: Phrase)
    requires AllWords(ws) && AllWords(p) && p != []
    ensures CutSuffix(Join(ws), Join(p)) == Join(CutSuffixWords(ws, p)) && AllWords(CutSuffixWords(ws, p))
  {
    JoinSuffix(p, ws);
  }

  /** On single-spaced text the character tests are word tests. */
  lemma StrippedOnceIsWords(ws: Phrase, p: Phrase)
    requires AllWords(ws) && AllWords(p) && p != []
    ensures StrippedOnce(Join(ws), Join(p)) == Join(StrippedWords(ws, p)) && AllWords(StrippedWords(ws, p))
  {
    JoinInjective(ws, p);
    PrefixTest(ws, p);
    SuffixTest(CutPrefixWords(ws, p), p);
  }

  lemma CutPrefixNormal(ws: Phrase, p: Phrase)
    requires IsFiller(p)
    ensures NormalForm(CutPrefixWords(ws, p)) == NormalForm(ws)
    ensures CutPrefixWords(ws, p) == ws <==> !(p < ws)
  {
    FillersApart(p, p, ws);
    if p < ws {
      assert ws == p + ws[|p|..];
      NormalFormStep(p, ws[|p|..]);
    }
  }

  lemma CutSuffixNormal(ws: Phrase, p: Phrase)
    requires IsFiller(p)
    ensures NormalForm(CutSuffixWords(ws, p)) == NormalForm(ws)
    ensures CutSuffixWords(ws, p) == ws <==> !(|p| < |ws| && IsSuffix(p, ws))
  {
    FillersApart(p, p, ws);
    if |p| < |ws| && IsSuffix(p, ws) {
      assert ws == ws[..|ws| - |p|] + p;
      NormalFormStep(p, ws[..|ws| - |p|]);
    }
  }

  /** What they strip are fillers. */
  lemma StrippedWordsNormal(ws: Phrase, p: Phrase)
    requires IsFiller(p)
    ensures NormalForm(StrippedWords(ws, p)) == NormalForm(ws)
    ensures StrippedWords(ws, p) == ws <==> !IsPrefix(p, ws) && !IsSuffix(p, ws)
  {
    FillersApart(p, p, ws);
    if ws == p {
      assert ws == p + [];
      NormalFormStep(p, []);
    } else {
      CutPrefixNormal(ws, p);
      CutSuffixNormal(CutPrefixWords(ws, p), p);
      EqualLengths(p, ws);
    }
  }

  lemma EqualLengths(p: Phrase, ws: Phrase)
    requires ws != p
    ensures IsPrefix(p, ws) <==> p < ws
    ensures IsSuffix(p, ws) ==> |p| < |ws|
    ensures |CutPrefixWords(ws, p)| <= |ws| && |CutSuffixWords(CutPrefixWords(ws, p), p)| <= |CutPrefixWords(ws, p)|
  {
  }

  lemma StrippedOnceShrinks(text: string, filler: string)
    requires filler != ""
    ensures |StrippedOnce(text, filler)| <= |text|
    ensures |StrippedOnce(text, filler)| == |text| ==> StrippedOnce(text, filler) == text
  {
  }

  /** The text after phrase `k` and the ones behind it. */
  function PassFrom(text: string, k: nat): string
    requires k <= |FILLER_PHRASES|
    decreases |FILLER_PHRASES| - k
  {
    if k == |FILLER_PHRASES| then text else PassFrom(StrippedOnce(text, FILLER_PHRASES[k]), k + 1)
  }

  lemma PhraseNotEmpty(k: nat)
    requires k < |FILLER_PHRASES|
    ensures FILLER_PHRASES[k] != ""
  {
  }

  /** Neither phrase `k` nor one behind it cuts anything. */
  predicate UncutFrom(text: string, k: nat)
    requires k <= |FILLER_PHRASES|
    decreases |FILLER_PHRASES| - k
  {
    k == |FILLER_PHRASES| || (StrippedOnce(text, FILLER_PHRASES[k]) == text && UncutFrom(text, k + 1))
  }

  lemma {:induction false} PassShrinks(text: string, k: nat)
    requires k <= |FILLER_PHRASES|
    ensures |PassFrom(text, k)| <= |text|
    ensures |PassFrom(text, k)| == |text| ==> PassFrom(text, k) == text && UncutFrom(text, k)
    decreases |FILLER_PHRASES| - k
  {
    if k < |FILLER_PHRASES| {
      PhraseNotEmpty(k);
      StrippedOnceShrinks(text, FILLER_PHRASES[k]);
      PassShrinks(StrippedOnce(text, FILLER_PHRASES[k]), k + 1);
    }
  }

  lemma {:induction false} StripShrinks(text: string)
    ensures |LStrip(text)| <= |text| && |RStrip(text)| <= |text|
    decreases |text|
  {
    if text != "" {
      StripShrinks(text[1..]);
      StripShrinks(text[..|text| - 1]);
    }
  }

  /** Passes until one changes nothing. */
  function FillerFree(text: string): string
    decreases |text|
  {
    PassShrinks(text, 0);
    var t := PassFrom(text, 0);
    StripShrinks(t);
    StripShrinks(LStrip(t));
    if |t| == |text| then Strip(t) else FillerFree(Strip(t))
  }

  /** One pass over the phrases. */
  method StripPass(input: string) returns (text: string, changed: bool)
    ensures text == PassFrom(input, 0) && changed == (|text| < |input|)
  {
    text, changed := input, false;
    var k := 0;
    while k < |FILLER_PHRASES|
      invariant k <= |FILLER_PHRASES| && PassFrom(text, k) == PassFrom(input, 0)
      invariant |text| <= |input| && changed == (|text| < |input|)
    {
      PhraseNotEmpty(k);
      var shorter;
      text, shorter := StripPhrase(text, FILLER_PHRASES[k]);
      changed := changed || shorter;
      k := k + 1;
    }
  }

  /** `_strip_filler`: terminates on any text. */
  method StripFiller(input: string) returns (text: string)
    ensures text == FillerFree(input)
  {
    text := input;
    var changed := true;
    while changed
      invariant if changed then FillerFree(text) == FillerFree(input) else text == FillerFree(input)
      decreases |text| + (if changed then 1 else 0)
    {
      ghost var before := text;
      text, changed := StripPass(text);
      PassShrinks(before, 0);
      StripShrinks(text);
      StripShrinks(LStrip(text));
      text := Strip(text);
    }
  }

  /** Stripped text ends up with no filler to cut. */
  lemma {:induction false} FillerFreeFixed(text: string)
    requires Strip(text) == text
    ensures UncutFrom(FillerFree(text), 0)
    decreases |text|
  {
    PassShrinks(text, 0);
    var t := PassFrom(text, 0);
    if |t| < |text| {
      StripShrinks(t);
      StripShrinks(LStrip(t));
      StripTrims(t);
      StripTrims(Strip(t));
      FillerFreeFixed(Strip(t));
    }
  }

  // ---- On words ----

  /** `p` is not a filler that starts or ends the words. */
  predicate Clear(p: Phrase, ws: Phrase) {
    !IsPrefix(p, ws) && !IsSuffix(p, ws)
  }

  lemma PhraseStep(ws: Phrase, k: nat) returns (next: Phrase)
    requires AllWords(ws) && k < |FILLERS| == |FILLER_PHRASES|
    ensures StrippedOnce(Join(ws), FILLER_PHRASES[k]) == Join(next) && AllWords(next) && NormalForm(next) == NormalForm(ws)
    ensures |Join(next)| <= |Join(ws)| && (|Join(next)| == |Join(ws)| ==> next == ws && Clear(FILLERS[k], ws))
  {
    FillersAreWords();
    var p := FILLERS[k];
    assert IsFiller(p);
    next := StrippedWords(ws, p);
    StrippedOnceIsWords(ws, p);
    StrippedWordsNormal(ws, p);
    JoinEnds(p);
    StrippedOnceShrinks(Join(ws), Join(p));
    JoinInjective(next, ws);
  }

  /** Phrase `k` and the ones behind it are clear. */
  predicate ClearFrom(ws: Phrase, k: nat)
    requires k <= |FILLERS|
    decreases |FILLERS| - k
  {
    k == |FILLERS| || (Clear(FILLERS[k], ws) && ClearFrom(ws, k + 1))
  }

  lemma {:induction false} ClearIsNormal(ws: Phrase, k: nat)
    requires k <= |FILLERS| && ClearFrom(ws, k)
    ensures forall j :: k <= j < |FILLERS| ==> !IsPrefix(FILLERS[j], ws) && !IsSuffix(FILLERS[j], ws)
    decreases |FILLERS| - k
  {
    if k < |FILLERS| {
      ClearIsNormal(ws, k + 1);
    }
  }

  /** A pass over single-spaced text keeps the normal form; a pass that changes nothing found it. */
  lemma {:induction false} PassOnWords(ws: Phrase, k: nat) returns (now: Phrase)
    requires AllWords(ws) && k <= |FILLERS| == |FILLER_PHRASES|
    ensures AllWords(now) && PassFrom(Join(ws), k) == Join(now) && NormalForm(now) == NormalForm(ws)
    ensures |Join(now)| <= |Join(ws)| && (|Join(now)| == |Join(ws)| ==> now == ws && ClearFrom(ws, k))
    decreases |FILLERS| - k
  {
    if k == |FILLERS| {
      return ws;
    }
    var next := PhraseStep(ws, k);
    now := PassOnWords(next, k + 1);
  }

  /** On single-spaced text the loop returns the unique normal form. */
  lemma {:induction false} FillerFreeWords(ws: Phrase)
    requires AllWords(ws)
    ensures FillerFree(Join(ws)) == Join(NormalForm(ws))
    decreases |Join(ws)|
  {
    FillersAreWords();
    var now := PassOnWords(ws, 0);
    StripJoin(now);
    if |Join(now)| == |Join(ws)| {
      ClearIsNormal(ws, 0);
      NormalIsFixed(ws);
    } else {
      FillerFreeWords(now);
    }
  }
}
