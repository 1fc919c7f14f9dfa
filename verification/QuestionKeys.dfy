/** The L0 key of a question: `normalize_question` in app/cache/normalizer.py, over ASCII text. */
module QuestionKeys {
  import opened Characters
  import opened Words
  import opened Normalizer

  // ---- Lower case, punctuation, spaces ----

  predicate Kept(c: char) {
    'a' <= c <= 'z' || IsDigit(c) || IsSpace(c) || c == '%'
  }

  /** Lower case, with every character that is not kept made a space. */
  function CleanChar(c: char): char {
    if Kept(LowerChar(c)) then LowerChar(c) else ' '
  }

  function Clean(s: string): (r: string)
    ensures |r| == |s|
  {
    if s == "" then "" else [CleanChar(s[0])] + Clean(s[1..])
  }

  /** Every run of spaces made one space. */
  function Collapse(s: string): string {
    if s == "" then ""
    else if !IsSpace(s[0]) then [s[0]] + Collapse(s[1..])
    else if |s| > 1 && IsSpace(s[1]) then Collapse(s[1..])
    else " " + Collapse(s[1..])
  }

  lemma {:induction false} RStripAppend(x: string, y: string)
    requires RStrip(y) != ""
    ensures RStrip(x + y) == x + RStrip(y)
    decreases |y|
  {
    if IsSpace(y[|y| - 1]) {
      assert (x + y)[..|x + y| - 1] == x + y[..|y| - 1];
      RStripAppend(x, y[..|y| - 1]);
    }
  }

  ghost predicate Trimmed(x: string, ws: Phrase) {
    RStrip(x) == Join(ws) != "" && AllWords(ws)
  }

  ghost predicate CollapsedAfter(cur: string, s: string) {
    Trimmed(cur + Collapse(s), SplitFrom(IsSpace, cur, s))
  }

  lemma CollapseFirst(cur: string, s: string)
    requires s != "" && !IsSpace(s[0])
    ensures cur + Collapse(s) == cur + [s[0]] + Collapse(s[1..])
    ensures SplitFrom(IsSpace, cur, s) == SplitFrom(IsSpace, cur + [s[0]], s[1..])
  {
    assert Collapse(s) == [s[0]] + Collapse(s[1..]);
  }

  lemma CollapseWithin(cur: string, s: string)
    requires s != "" && !IsSpace(s[0]) && CollapsedAfter(cur + [s[0]], s[1..])
    ensures CollapsedAfter(cur, s)
  {
    CollapseFirst(cur, s);
  }

  lemma CollapseSpaces(cur: string, s: string)
    requires cur != "" && |s| > 1 && IsSpace(s[0]) && IsSpace(s[1]) && CollapsedAfter(cur, s[1..])
    ensures CollapsedAfter(cur, s)
  {
    assert SplitFrom(IsSpace, cur, s) == [cur] + SplitFrom(IsSpace, "", s[1..]);
    assert SplitFrom(IsSpace, "", s[1..]) == SplitFrom(IsSpace, "", s[1..][1..]);
  }

  lemma CollapseEnd(cur: string, s: string)
    requires IsWord(cur) && (s == "" || (|s| == 1 && IsSpace(s[0])))
    ensures CollapsedAfter(cur, s)
  {
    if s == "" {
      assert cur + Collapse(s) == cur;
    } else {
      assert (cur + " ")[..|cur|] == cur;
    }
  }

  /** After a first word character, the collapsed text is its words joined, but for a space at the end. */
  lemma {:induction false} CollapseAfter(cur: string, s: string)
    requires IsWord(cur)
    ensures CollapsedAfter(cur, s)
    decreases |s|
  {
    if s == "" || (|s| == 1 && IsSpace(s[0])) {
      CollapseEnd(cur, s);
    } else if !IsSpace(s[0]) {
      CollapseAfter(cur + [s[0]], s[1..]);
      CollapseWithin(cur, s);
    } else if IsSpace(s[1]) {
      CollapseAfter(cur, s[1..]);
      CollapseSpaces(cur, s);
    } else {
      CollapseAfter([s[1]], s[2..]);
      CollapseAcross(cur, s);
    }
  }

  lemma CollapseAcross(cur: string, s: string)
    requires IsWord(cur) && |s| > 1 && IsSpace(s[0]) && !IsSpace(s[1])
    requires CollapsedAfter([s[1]], s[2..])
    ensures CollapsedAfter(cur, s)
  {
    var first, rest := [s[1]], s[2..];
    assert s[1..][0] == s[1] && s[1..][1..] == rest && "" + [s[1]] == first;
    RStripAppend(cur + " ", first + Collapse(rest));
    assert cur + Collapse(s) == cur + " " + (first + Collapse(rest));
    assert SplitFrom(IsSpace, cur, s) == [cur] + SplitFrom(IsSpace, first, rest);
  }

  lemma LStripSpace(c: char, x: string)
    requires IsSpace(c)
    ensures LStrip([c] + x) == LStrip(x)
  {
    assert ([c] + x)[1..] == x;
  }

  lemma LeadingSpace(s: string)
    requires s != "" && IsSpace(s[0])
    ensures LStrip(Collapse(s)) == LStrip(Collapse(s[1..])) && WordsOf(s) == WordsOf(s[1..])
  {
    assert [] + SplitFrom(IsSpace, "", s[1..]) == SplitFrom(IsSpace, "", s[1..]);
    if !(|s| > 1 && IsSpace(s[1])) {
      assert Collapse(s) == [' '] + Collapse(s[1..]);
      LStripSpace(' ', Collapse(s[1..]));
    }
  }

  /** Collapsing and stripping a text joins its words with single spaces. */
  lemma {:induction false} CollapseStripIsJoin(s: string)
    ensures Strip(Collapse(s)) == Join(WordsOf(s)) && AllWords(WordsOf(s))
    decreases |s|
  {
    if s == "" {
    } else if !IsSpace(s[0]) {
      CollapseAfter([s[0]], s[1..]);
      assert "" + [s[0]] == [s[0]];
    } else {
      CollapseStripIsJoin(s[1..]);
      LeadingSpace(s);
    }
  }

  // ---- Synonyms ----

  predicate IsWordChar(c: char) {
    'a' <= c <= 'z' || 'A' <= c <= 'Z' || IsDigit(c) || c == '_'
  }

  /** A synonym key: one word, or two. */
  datatype Key = One(word: string) | Two(first: string, second: string) {
    function Text(): string {
      if One? then word else first + " " + second
    }
  }

  /** The synonyms, in the order they are replaced: more words first, then longer, then as listed. */
  const SYNONYMS: seq<(Key, string)> := [
    (Two("purchase", "spend"), "purchase_value"), (Two("invoice", "value"), "revenue"), (Two("order", "value"), "order_revenue"),
    (One("turnover"), "revenue"), (One("sales"), "revenue"), (One("spend"), "purchase_value")]

  predicate Letters(w: string) {
    w != "" && forall k :: 0 <= k < |w| ==> 'a' <= w[k] <= 'z'
  }

  predicate LetterKey(key: Key) {
    if key.One? then Letters(key.word) else Letters(key.first) && Letters(key.second)
  }

  /** The key stands at the front of `s` and ends at a word boundary. */
  predicate KeyAt(key: Key, s: string) {
    key.Text() <= s && (|s| == |key.Text()| || !IsWordChar(s[|key.Text()|]))
  }

  /** Every occurrence of the key at word boundaries replaced; `inWord` says what precedes `s`. */
  function Replace(key: Key, value: string, inWord: bool, s: string): string
    requires LetterKey(key)
    decreases |s|
  {
    if s == "" then ""
    else if !inWord && KeyAt(key, s) then value + Replace(key, value, true, s[|key.Text()|..])
    else [s[0]] + Replace(key, value, IsWordChar(s[0]), s[1..])
  }

  /** The first `n` synonyms applied. */
  function Synonyms(n: nat, s: string): string
    requires n <= |SYNONYMS|
  {
    if n == 0 then s else
      KeysAreLetters(n - 1);
      Replace(SYNONYMS[n - 1].0, SYNONYMS[n - 1].1, false, Synonyms(n - 1, s))
  }

  lemma KeysAreLetters(k: nat)
    requires k < |SYNONYMS|
    ensures LetterKey(SYNONYMS[k].0)
  {
  }

  // ---- The key ----

  function QuestionKey(text: string): string {
    Join(NormalForm(WordsOf(Synonyms(|SYNONYMS|, Join(WordsOf(Clean(text)))))))
  }

  method ApplySynonyms(input: string) returns (text: string)
    ensures text == Synonyms(|SYNONYMS|, input)
  {
    text := input;
    for k := 0 to |SYNONYMS|
      invariant text == Synonyms(k, input)
    {
      KeysAreLetters(k);
      text := Replace(SYNONYMS[k].0, SYNONYMS[k].1, false, text);
    }
  }

  /** `normalize_question`. */
  method NormalizeQuestion(text: string) returns (key: string)
    ensures key == QuestionKey(text)
  {
    var s := Clean(text);
    CollapseStripIsJoin(s);
    s := Strip(Collapse(s));
    s := ApplySynonyms(s);
    CollapseStripIsJoin(s);
    ghost var ws := WordsOf(s);
    s := Strip(Collapse(s));
    key := StripFiller(s);
    FillerFreeWords(ws);
  }

  // ---- Fillers and synonyms do not meet ----

  predicate EndsKey(key: Key, a: string) {
    key.Two? && EndsWith(a, key.first)
  }

  predicate StartsKey(key: Key, b: string) {
    key.Two? && key.second <= b
  }

  /** A key that reaches over the space has one half ending before it and the other starting after. */
  lemma KeyReaches(key: Key, a: string, b: string)
    requires LetterKey(key) && a != "" && key.Text() <= a + " " + b && |key.Text()| > |a|
    ensures EndsKey(key, a) && StartsKey(key, b)
  {
    var t, s := key.Text(), a + " " + b;
    assert t[|a|] == s[|a|] == ' ';
    assert key.Two? && |a| == |key.first|;
    assert a == s[..|a|] == t[..|a|] == key.first;
    assert key.second == t[|a| + 1..] == s[|a| + 1..|t|] == b[..|key.second|];
  }

  lemma KeyOverSpace(key: Key, a: string, b: string)
    requires LetterKey(key) && a != "" && !(EndsKey(key, a) && StartsKey(key, b))
    ensures KeyAt(key, a + " " + b) <==> KeyAt(key, a)
    ensures KeyAt(key, a) ==> 0 < |key.Text()| <= |a|
  {
    var t, s := key.Text(), a + " " + b;
    if t <= s && |t| > |a| {
      KeyReaches(key, a, b);
    } else if |t| <= |a| {
      assert s[..|t|] == a[..|t|];
    }
  }

  lemma EndsLater(key: Key, a: string, n: nat)
    requires n <= |a| && EndsKey(key, a[n..])
    ensures EndsKey(key, a)
  {
    assert a[n..][|a[n..]| - |key.first|..] == a[|a| - |key.first|..];
  }

  lemma ReplaceAtSpace(key: Key, value: string, inWord: bool, b: string)
    requires LetterKey(key)
    ensures Replace(key, value, inWord, " " + b) == " " + Replace(key, value, false, b)
  {
    assert (" " + b)[0] == ' ' && (" " + b)[1..] == b;
    assert key.Text()[0] != ' ';
  }

  lemma {:induction false} ReplaceOverSpace(key: Key, value: string, inWord: bool, a: string, b: string)
    requires LetterKey(key) && !(EndsKey(key, a) && StartsKey(key, b))
    ensures Replace(key, value, inWord, a + " " + b) == Replace(key, value, inWord, a) + " " + Replace(key, value, false, b)
    decreases |a|
  {
    if a == "" {
      assert a + " " + b == " " + b;
      ReplaceAtSpace(key, value, inWord, b);
    } else {
      KeyOverSpace(key, a, b);
      var hit := !inWord && KeyAt(key, a);
      var n := if hit then |key.Text()| else 1;
      if EndsKey(key, a[n..]) {
        EndsLater(key, a, n);
      }
      ReplaceOverSpace(key, value, hit || IsWordChar(a[0]), a[n..], b);
      ReplaceAgreeing(key, value, inWord, a, b, n);
    }
  }

  /** If the key stands in front of both texts or of neither, and what follows is replaced alike, so is the whole. */
  lemma ReplaceAgreeing(key: Key, value: string, inWord: bool, a: string, b: string, n: nat)
    requires LetterKey(key) && a != "" && (KeyAt(key, a + " " + b) <==> KeyAt(key, a))
    requires n == (if !inWord && KeyAt(key, a) then |key.Text()| else 1) && n <= |a|
    requires var inRest := (!inWord && KeyAt(key, a)) || IsWordChar(a[0]);
      Replace(key, value, inRest, a[n..] + " " + b) == Replace(key, value, inRest, a[n..]) + " " + Replace(key, value, false, b)
    ensures Replace(key, value, inWord, a + " " + b) == Replace(key, value, inWord, a) + " " + Replace(key, value, false, b)
  {
    var hit := !inWord && KeyAt(key, a);
    var inRest := hit || IsWordChar(a[0]);
    var s := a + " " + b;
    DropBeforeSpace(a, b, n, s);
    ReplaceStep(key, value, inWord, a);
    ReplaceStep(key, value, inWord, s);
    Associate(if hit then value else [a[0]], Replace(key, value, inRest, a[n..]), Replace(key, value, false, b));
  }

  lemma DropBeforeSpace(a: string, b: string, n: nat, s: string)
    requires a != "" && n <= |a| && s == a + " " + b
    ensures s != "" && s[0] == a[0] && s[n..] == a[n..] + " " + b
  {
  }

  lemma Associate(x: string, y: string, z: string)
    ensures x + (y + " " + z) == x + y + " " + z
  {
  }

  lemma ReplaceStep(key: Key, value: string, inWord: bool, s: string)
    requires LetterKey(key) && s != ""
    ensures var hit := !inWord && KeyAt(key, s);
      Replace(key, value, inWord, s)
      == (if hit then value else [s[0]]) + Replace(key, value, hit || IsWordChar(s[0]), s[if hit then |key.Text()| else 1..])
  {
  }

  /** The first or the second characters differ. */
  predicate OtherStart(u: string, w: string) {
    (u != "" && w != "" && u[0] != w[0]) || (|u| >= 2 && |w| >= 2 && u[1] != w[1])
  }

  /** Lower-case letters and digits. */
  predicate IsPlain(w: string) {
    w != "" && forall k :: 0 <= k < |w| ==> 'a' <= w[k] <= 'z' || '0' <= w[k] <= '9'
  }

  /** The word starts differently from both halves of the key, and does not end like the first of two. */
  predicate Apart(key: Key, w: string) {
    && IsPlain(w) && LetterKey(key) && !EndsKey(key, w) && OtherStart(key.Text(), w)
    && (key.Two? ==> OtherStart(key.second, w))
  }

  ghost predicate AllApart(key: Key, ws: Phrase) {
    forall k :: 0 <= k < |ws| ==> Apart(key, ws[k])
  }

  ghost predicate ApartFromSynonyms(ws: Phrase) {
    forall k :: 0 <= k < |SYNONYMS| ==> AllApart(SYNONYMS[k].0, ws)
  }

  lemma {:induction false} ReplaceInWord(key: Key, value: string, w: string)
    requires LetterKey(key) && forall k :: 0 <= k < |w| ==> IsWordChar(w[k])
    ensures Replace(key, value, true, w) == w
    decreases |w|
  {
    if w != "" {
      ReplaceInWord(key, value, w[1..]);
    }
  }

  lemma ReplaceApartWord(key: Key, value: string, w: string)
    requires Apart(key, w)
    ensures Replace(key, value, false, w) == w
  {
    ReplaceInWord(key, value, w[1..]);
    assert [w[0]] + w[1..] == w;
  }

  lemma ReplaceAfterWord(key: Key, value: string, w: string, b: string)
    requires Apart(key, w)
    ensures Replace(key, value, false, w + " " + b) == w + " " + Replace(key, value, false, b)
  {
    ReplaceApartWord(key, value, w);
    ReplaceOverSpace(key, value, false, w, b);
  }

  lemma WordThenText(key: Key, value: string, w: string, t: string, b: string)
    requires Apart(key, w)
    requires Replace(key, value, false, t + " " + b) == t + " " + Replace(key, value, false, b) && Replace(key, value, false, t) == t
    ensures Replace(key, value, false, w + " " + t + " " + b) == w + " " + t + " " + Replace(key, value, false, b)
    ensures Replace(key, value, false, w + " " + t) == w + " " + t
  {
    Associate(w + " ", t, b);
    ReplaceAfterWord(key, value, w, t + " " + b);
    ReplaceAfterWord(key, value, w, t);
    Associate(w + " ", t, Replace(key, value, false, b));
  }

  /** Synonyms leave words apart from them as they are, and what follows is replaced on its own. */
  lemma {:induction false} ReplaceAfterWords(key: Key, value: string, fs: Phrase, b: string)
    requires AllApart(key, fs) && fs != []
    ensures LetterKey(key)
    ensures Replace(key, value, false, Join(fs) + " " + b) == Join(fs) + " " + Replace(key, value, false, b)
    ensures Replace(key, value, false, Join(fs)) == Join(fs)
    decreases |fs|
  {
    var w := fs[0];
    assert Apart(key, w);
    if |fs| == 1 {
      ReplaceApartWord(key, value, w);
      ReplaceAfterWord(key, value, w, b);
    } else {
      ReplaceAfterWords(key, value, fs[1..], b);
      WordThenText(key, value, w, Join(fs[1..]), b);
    }
  }

  lemma StartsOtherwise(key: Key, w: string, rest: string)
    requires Apart(key, w)
    ensures !StartsKey(key, w + rest)
  {
    assert (w + rest)[0] == w[0] && (|w| >= 2 ==> (w + rest)[1] == w[1]);
  }

  lemma ReplaceBeforeWords(key: Key, value: string, a: string, fs: Phrase)
    requires AllApart(key, fs) && fs != []
    ensures LetterKey(key)
    ensures Replace(key, value, false, a + " " + Join(fs)) == Replace(key, value, false, a) + " " + Join(fs)
  {
    var w := fs[0];
    var rest := if |fs| == 1 then "" else " " + Join(fs[1..]);
    assert Apart(key, w) && Join(fs) == w + rest;
    StartsOtherwise(key, w, rest);
    ReplaceAfterWords(key, value, fs, "");
    ReplaceOverSpace(key, value, false, a, Join(fs));
  }

  function ReplaceSynonym(k: nat, s: string): string
    requires k < |SYNONYMS|
  {
    KeysAreLetters(k);
    Replace(SYNONYMS[k].0, SYNONYMS[k].1, false, s)
  }

  lemma OneSynonym(k: nat, s: string)
    requires k < |SYNONYMS|
    ensures Synonyms(k + 1, s) == ReplaceSynonym(k, Synonyms(k, s))
  {
  }

  lemma OneSynonymAroundWords(k: nat, fs: Phrase, s: string)
    requires k < |SYNONYMS| && ApartFromSynonyms(fs) && fs != []
    ensures ReplaceSynonym(k, Join(fs) + " " + s) == Join(fs) + " " + ReplaceSynonym(k, s)
    ensures ReplaceSynonym(k, s + " " + Join(fs)) == ReplaceSynonym(k, s) + " " + Join(fs)
    ensures ReplaceSynonym(k, Join(fs)) == Join(fs)
  {
    KeysAreLetters(k);
    assert AllApart(SYNONYMS[k].0, fs);
    ReplaceAfterWords(SYNONYMS[k].0, SYNONYMS[k].1, fs, s);
    ReplaceBeforeWords(SYNONYMS[k].0, SYNONYMS[k].1, s, fs);
  }

  lemma {:induction false} SynonymsAroundWords(fs: Phrase, n: nat, s: string)
    requires ApartFromSynonyms(fs) && fs != [] && n <= |SYNONYMS|
    ensures Synonyms(n, Join(fs) + " " + s) == Join(fs) + " " + Synonyms(n, s)
    ensures Synonyms(n, s + " " + Join(fs)) == Synonyms(n, s) + " " + Join(fs)
    ensures Synonyms(n, Join(fs)) == Join(fs)
  {
    if n > 0 {
      SynonymsAroundWords(fs, n - 1, s);
      OneSynonym(n - 1, Join(fs) + " " + s);
      OneSynonym(n - 1, s + " " + Join(fs));
      OneSynonym(n - 1, Join(fs));
      OneSynonym(n - 1, s);
      OneSynonymAroundWords(n - 1, fs, Synonyms(n - 1, s));
    }
  }

  // ---- Fillers do not change the key ----

  type Choice = k: nat | k < 7

  /** A run of filler phrases, one after the other. */
  function Run(phrases: seq<Choice>): Phrase {
    if phrases == [] then [] else FILLERS[phrases[0]] + Run(phrases[1..])
  }

  lemma PhraseApart(f: Choice, k: nat)
    requires k < |SYNONYMS|
    ensures AllApart(SYNONYMS[k].0, FILLERS[f])
  {
    var p := FILLERS[f];
    forall i | 0 <= i < |p| ensures Apart(SYNONYMS[k].0, p[i]) {
      if SYNONYMS[k].0.Two? {
        WordApartFromPair(k, f, i);
      } else {
        WordApartFromWord(k, f, i);
      }
    }
  }

  lemma FillerLetters(f: Choice, i: nat)
    requires i < |FILLERS[f]|
    ensures IsPlain(FILLERS[f][i])
  {
  }

  lemma PairStartsElse(k: nat, f: Choice, i: nat)
    requires k < |SYNONYMS| && SYNONYMS[k].0.Two? && i < |FILLERS[f]|
    ensures OtherStart(SYNONYMS[k].0.Text(), FILLERS[f][i]) && OtherStart(SYNONYMS[k].0.second, FILLERS[f][i])
  {
  }

  lemma PairEndsElse(k: nat, f: Choice, i: nat)
    requires k < |SYNONYMS| && SYNONYMS[k].0.Two? && i < |FILLERS[f]|
    ensures !EndsKey(SYNONYMS[k].0, FILLERS[f][i])
  {
  }

  lemma WordApartFromPair(k: nat, f: Choice, i: nat)
    requires k < |SYNONYMS| && SYNONYMS[k].0.Two? && i < |FILLERS[f]|
    ensures Apart(SYNONYMS[k].0, FILLERS[f][i])
  {
    var key, w := SYNONYMS[k].0, FILLERS[f][i];
    KeysAreLetters(k);
    FillerLetters(f, i);
    PairStartsElse(k, f, i);
    PairEndsElse(k, f, i);
    assert Apart(key, w);
  }

  lemma WordApartFromWord(k: nat, f: Choice, i: nat)
    requires k < |SYNONYMS| && SYNONYMS[k].0.One? && i < |FILLERS[f]|
    ensures Apart(SYNONYMS[k].0, FILLERS[f][i])
  {
  }

  lemma {:induction false} RunApart(phrases: seq<Choice>)
    ensures ApartFromSynonyms(Run(phrases)) && AllWords(Run(phrases))
  {
    if phrases != [] {
      RunApart(phrases[1..]);
      FillersAreWords();
      forall k | 0 <= k < |SYNONYMS| ensures AllApart(SYNONYMS[k].0, Run(phrases)) {
        PhraseApart(phrases[0], k);
        assert AllApart(SYNONYMS[k].0, Run(phrases[1..]));
      }
    }
  }

  lemma FillerInFront(p: Phrase, t: Phrase, whole: Phrase)
    requires IsFiller(p) && whole == p + t
    ensures NormalForm(whole) == NormalForm(t)
  {
    NormalFormStep(p, t);
  }

  lemma FillerBehind(p: Phrase, t: Phrase, whole: Phrase)
    requires IsFiller(p) && whole == t + p
    ensures NormalForm(whole) == NormalForm(t)
  {
    NormalFormStep(p, t);
  }

  lemma {:induction false} RunKeepsNormalForm(phrases: seq<Choice>, ws: Phrase)
    ensures NormalForm(Run(phrases) + ws) == NormalForm(ws)
    ensures NormalForm(ws + Run(phrases)) == NormalForm(ws)
    decreases |phrases|
  {
    if phrases == [] {
      assert Run(phrases) + ws == ws == ws + Run(phrases);
    } else {
      RunInFront(phrases, ws);
      RunBehind(phrases, ws);
    }
  }

  lemma {:induction false} RunInFront(phrases: seq<Choice>, ws: Phrase)
    requires phrases != []
    ensures NormalForm(Run(phrases) + ws) == NormalForm(ws)
    decreases |phrases|, 0
  {
    var p, rest := FILLERS[phrases[0]], Run(phrases[1..]);
    assert Run(phrases) + ws == p + (rest + ws);
    FillerInFront(p, rest + ws, Run(phrases) + ws);
    RunKeepsNormalForm(phrases[1..], ws);
  }

  lemma {:induction false} RunBehind(phrases: seq<Choice>, ws: Phrase)
    requires phrases != []
    ensures NormalForm(ws + Run(phrases)) == NormalForm(ws)
    decreases |phrases|, 0
  {
    var p, rest := FILLERS[phrases[0]], Run(phrases[1..]);
    assert ws + Run(phrases) == ws + p + rest;
    RunKeepsNormalForm(phrases[1..], ws + p);
    FillerBehind(p, ws, ws + p);
  }

  lemma {:induction false} CleanAppend(a: string, b: string)
    ensures Clean(a + b) == Clean(a) + Clean(b)
  {
    if a == "" {
      assert a + b == b;
    } else {
      assert (a + b)[1..] == a[1..] + b;
      CleanAppend(a[1..], b);
    }
  }

  lemma CleanedWordsApart(a: string, c: char, b: string)
    requires IsSpace(CleanChar(c))
    ensures WordsOf(Clean(a + [c] + b)) == WordsOf(Clean(a)) + WordsOf(Clean(b))
  {
    CleanAppend(a + [c], b);
    CleanAppend(a, [c]);
    assert Clean([c]) == [CleanChar(c)];
    SplitAt(IsSpace, "", Clean(a), CleanChar(c), Clean(b));
  }

  /** The words a key is made of, for the words of a cleaned question. */
  function SynonymWords(ws: Phrase): Phrase {
    WordsOf(Synonyms(|SYNONYMS|, Join(ws)))
  }

  lemma SynonymWordsAround(run: Phrase, ws: Phrase)
    requires ApartFromSynonyms(run) && AllWords(run) && AllWords(ws)
    ensures SynonymWords(run + ws) == run + SynonymWords(ws) && SynonymWords(ws + run) == SynonymWords(ws) + run
  {
    var n := |SYNONYMS|;
    if run == [] {
      assert run + ws == ws == ws + run;
    } else {
      SynonymsAroundWords(run, n, Join(ws));
      SplitJoin(run);
      if ws == [] {
        assert run + ws == run == ws + run;
        SynonymsOfNothing(n);
      } else {
        JoinAppend(run, ws);
        JoinAppend(ws, run);
        SplitAt(IsSpace, "", Join(run), ' ', Synonyms(n, Join(ws)));
        SplitAt(IsSpace, "", Synonyms(n, Join(ws)), ' ', Join(run));
      }
    }
  }

  lemma {:induction false} SynonymsOfNothing(n: nat)
    requires n <= |SYNONYMS|
    ensures Synonyms(n, "") == ""
  {
    if n > 0 {
      SynonymsOfNothing(n - 1);
    }
  }

  /**
   * A run of filler phrases before or after a question, in any case and with any punctuation or spaces,
   * does not change the key.
   */
  lemma FillersKeepKey(fillers: string, phrases: seq<Choice>, c: char, question: string)
    requires WordsOf(Clean(fillers)) == Run(phrases) && IsSpace(CleanChar(c))
    ensures QuestionKey(fillers + [c] + question) == QuestionKey(question) == QuestionKey(question + [c] + fillers)
  {
    var run, ws := Run(phrases), WordsOf(Clean(question));
    CleanedWordsApart(fillers, c, question);
    CleanedWordsApart(question, c, fillers);
    RunApart(phrases);
    CollapseStripIsJoin(Clean(question));
    SynonymWordsAround(run, ws);
    RunKeepsNormalForm(phrases, SynonymWords(ws));
  }
}
