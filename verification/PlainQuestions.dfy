/** What the key of a plain question keeps: app/cache/normalizer.py and SYNONYMS of app/domain/glossary.py. */
module PlainQuestions {
  import opened Characters
  import opened Words
  import opened Normalizer
  import Relational
  import opened QuestionKeys

  // ---- Characters ----

  /** Letters lose their case; digits, percent signs and white space stay; everything else becomes a space. */
  predicate CleansTo(c: char, d: char) {
    if 'A' <= c <= 'Z' then 'a' <= d <= 'z' && d as int - 'a' as int == c as int - 'A' as int
    else if 'a' <= c <= 'z' || '0' <= c <= '9' || c == '%' || IsSpace(c) then d == c
    else d == ' '
  }

  lemma {:induction false} CleanIs(text: string)
    ensures forall k :: 0 <= k < |text| ==> CleansTo(text[k], Clean(text)[k])
  {
    if text != "" {
      CleanIs(text[1..]);
      assert forall k :: 1 <= k < |text| ==> text[k] == text[1..][k - 1] && Clean(text)[k] == Clean(text[1..])[k - 1];
    }
  }

  predicate IsPlainOrSpace(c: char) {
    'a' <= c <= 'z' || '0' <= c <= '9' || c == ' '
  }

  lemma {:induction false} JoinedPlain(ws: Phrase)
    requires forall k :: 0 <= k < |ws| ==> IsPlain(ws[k])
    ensures AllWords(ws) && forall k :: 0 <= k < |Join(ws)| ==> IsPlainOrSpace(Join(ws)[k])
  {
    if ws != [] {
      JoinedPlain(ws[1..]);
      assert ws == [ws[0]] + ws[1..];
    }
  }

  lemma CleanedPlain(text: string, plain: string)
    requires SameName(text, plain) && forall k :: 0 <= k < |plain| ==> IsPlainOrSpace(plain[k])
    ensures Clean(text) == plain
  {
    CleanIs(text);
    forall k | 0 <= k < |text| ensures Clean(text)[k] == plain[k] {
      assert SameLetter(text[k], plain[k]) && IsPlainOrSpace(plain[k]);
    }
  }

  // ---- Words ----

  /** A question of plain words that are apart from the synonyms keeps all of them but the fillers at its ends, whatever its case. */
  lemma PlainKey(ws: Phrase, text: string)
    requires ws != [] && ApartFromSynonyms(ws) && SameName(text, Join(ws))
    ensures QuestionKey(text) == Join(NormalForm(ws))
  {
    forall k | 0 <= k < |ws| ensures IsPlain(ws[k]) {
      assert AllApart(SYNONYMS[0].0, ws);
      assert Apart(SYNONYMS[0].0, ws[k]);
    }
    JoinedPlain(ws);
    CleanedPlain(text, Join(ws));
    SplitJoin(ws);
    SynonymsAroundWords(ws, |SYNONYMS|, "");
  }

  /** Such questions without fillers at their ends, be they "top 5" and "top 10", share a key only if they have the same words. */
  lemma PlainKeysDiffer(ws: Phrase, vs: Phrase)
    requires ws != [] && ApartFromSynonyms(ws) && IsNormal(ws)
    requires vs != [] && ApartFromSynonyms(vs) && IsNormal(vs)
    ensures QuestionKey(Join(ws)) == QuestionKey(Join(vs)) <==> ws == vs
  {
    PlainKey(ws, Join(ws));
    PlainKey(vs, Join(vs));
    NormalIsFixed(ws);
    NormalIsFixed(vs);
    forall phrase | phrase == ws || phrase == vs ensures AllWords(phrase) {
      assert AllApart(SYNONYMS[0].0, phrase);
      assert forall k :: 0 <= k < |phrase| ==> Apart(SYNONYMS[0].0, phrase[k]) && IsPlain(phrase[k]);
      JoinedPlain(phrase);
    }
    JoinInjective(ws, vs);
  }

  lemma NumbersApart(k: nat, w: string)
    requires k < |SYNONYMS| && w != "" && forall i :: 0 <= i < |w| ==> '0' <= w[i] <= '9'
    ensures Apart(SYNONYMS[k].0, w)
  {
    KeysAreLetters(k);
    var key := SYNONYMS[k].0;
    assert '0' <= w[|w| - 1] <= '9';
    if key.Two? && |key.first| <= |w| {
      assert 'a' <= key.first[|key.first| - 1] <= 'z';
      assert w[|w| - |key.first|..][|key.first| - 1] == w[|w| - 1];
    }
  }

  /** A number at the end of a question of plain words is part of its key. */
  lemma NumbersTellApart(ws: Phrase, a: string, b: string)
    requires ApartFromSynonyms(ws) && a != "" && b != "" && AllDigits(a) && AllDigits(b)
    requires IsNormal(ws + [a]) && IsNormal(ws + [b])
    ensures QuestionKey(Join(ws + [a])) == QuestionKey(Join(ws + [b])) <==> a == b
  {
    forall k, n | 0 <= k < |SYNONYMS| && (n == a || n == b) ensures AllApart(SYNONYMS[k].0, ws + [n]) {
      NumbersApart(k, n);
      assert AllApart(SYNONYMS[k].0, ws);
    }
    PlainKeysDiffer(ws + [a], ws + [b]);
    assert (ws + [a])[|ws|] == a && (ws + [b])[|ws|] == b;
  }

  // ---- Polite words ----

  /** The phrases that do not matter at the ends of a question. */
  predicate IsPoliteness(p: Phrase) {
    || p == ["please"] || p == ["can", "you"] || p == ["show", "me"] || p == ["give", "me"] || p == ["tell", "me"]
    || p == ["what", "is"] || p == ["what", "are"]
  }

  lemma FillersAre(p: Phrase)
    ensures IsFiller(p) <==> IsPoliteness(p)
  {
    assert FILLERS[0] == ["please"] && FILLERS[1] == ["can", "you"] && FILLERS[2] == ["show", "me"] && FILLERS[3] == ["give", "me"];
    assert FILLERS[4] == ["what", "is"] && FILLERS[5] == ["what", "are"] && FILLERS[6] == ["tell", "me"];
  }

  lemma FillerApart(p: Phrase)
    requires IsFiller(p)
    ensures ApartFromSynonyms(p)
  {
    var f: nat :| f < |FILLERS| && FILLERS[f] == p;
    forall k | 0 <= k < |SYNONYMS| ensures AllApart(SYNONYMS[k].0, p) {
      PhraseApart(f, k);
    }
  }

  lemma ApartAppend(a: Phrase, b: Phrase)
    requires ApartFromSynonyms(a) && ApartFromSynonyms(b)
    ensures ApartFromSynonyms(a + b)
  {
    forall k | 0 <= k < |SYNONYMS| ensures AllApart(SYNONYMS[k].0, a + b) {
      assert AllApart(SYNONYMS[k].0, a) && AllApart(SYNONYMS[k].0, b);
    }
  }

  /** A polite phrase before or after a plain question does not change its key. */
  lemma PolitenessDropped(p: Phrase, rest: Phrase, before: string, after: string)
    requires IsPoliteness(p) && rest != [] && ApartFromSynonyms(rest)
    requires SameName(before, Join(p + rest)) && SameName(after, Join(rest + p))
    ensures QuestionKey(before) == QuestionKey(Join(rest)) == QuestionKey(after)
  {
    FillersAre(p);
    FillerApart(p);
    ApartAppend(p, rest);
    ApartAppend(rest, p);
    PlainKey(p + rest, before);
    PlainKey(rest + p, after);
    PlainKey(rest, Join(rest));
    NormalFormStep(p, rest);
  }

  // ---- Synonyms ----

  /** Two ways to say the same, and the one the key has. */
  predicate IsSynonym(said: Phrase, meant: string) {
    || (said == ["sales"] && meant == "revenue") || (said == ["turnover"] && meant == "revenue")
    || (said == ["invoice", "value"] && meant == "revenue") || (said == ["order", "value"] && meant == "order_revenue")
    || (said == ["spend"] && meant == "purchase_value") || (said == ["purchase", "spend"] && meant == "purchase_value")
  }

  /** A word that the key does not start stays. */
  lemma ReplaceNoWord(key: Key, value: string, w: string)
    requires LetterKey(key) && !KeyAt(key, w) && forall k :: 0 <= k < |w| ==> IsWordChar(w[k])
    ensures Replace(key, value, false, w) == w
  {
    if w != "" {
      ReplaceInWord(key, value, w[1..]);
      assert w == [w[0]] + w[1..];
    }
  }

  lemma ReplaceWhole(key: Key, value: string)
    requires LetterKey(key)
    ensures Replace(key, value, false, key.Text()) == value
  {
    assert key.Text()[|key.Text()|..] == "";
  }

  lemma ReplaceNoPair(key: Key, value: string, a: string, b: string)
    requires LetterKey(key) && !KeyAt(key, a) && !KeyAt(key, b) && !(EndsKey(key, a) && StartsKey(key, b))
    requires forall k :: 0 <= k < |a| ==> IsWordChar(a[k])
    requires forall k :: 0 <= k < |b| ==> IsWordChar(b[k])
    ensures Replace(key, value, false, a + " " + b) == a + " " + b
  {
    ReplaceOverSpace(key, value, false, a, b);
    ReplaceNoWord(key, value, a);
    ReplaceNoWord(key, value, b);
  }

  predicate WordChars(w: string) {
    forall k :: 0 <= k < |w| ==> IsWordChar(w[k])
  }

  /** None of the synonyms from `a` to `b` starts the word. */
  predicate Unmoved(a: nat, b: nat, w: string)
    requires a <= b <= |SYNONYMS|
  {
    WordChars(w) && forall k :: a <= k < b ==> OtherStart(SYNONYMS[k].0.Text(), w)
  }

  lemma SynonymMisses(k: nat, w: string)
    requires k < |SYNONYMS| && WordChars(w) && OtherStart(SYNONYMS[k].0.Text(), w)
    ensures ReplaceSynonym(k, w) == w
  {
    KeysAreLetters(k);
    ReplaceNoWord(SYNONYMS[k].0, SYNONYMS[k].1, w);
  }

  lemma {:induction false} WordStays(a: nat, b: nat, s: string, w: string)
    requires a <= b <= |SYNONYMS| && Unmoved(a, b, w) && Synonyms(a, s) == w
    ensures Synonyms(b, s) == w
    decreases b
  {
    if a < b {
      var k: nat := b - 1;
      WordStays(a, k, s, w);
      OneSynonym(k, s);
      SynonymMisses(k, w);
    }
  }

  predicate FirstStays(b: nat, first: string)
    requires b <= |SYNONYMS|
  {
    forall k :: 0 <= k < b ==> !EndsKey(SYNONYMS[k].0, first)
  }

  lemma SynonymMissesPair(k: nat, first: string, second: string)
    requires k < |SYNONYMS| && WordChars(first) && WordChars(second) && !EndsKey(SYNONYMS[k].0, first)
    requires OtherStart(SYNONYMS[k].0.Text(), first) && OtherStart(SYNONYMS[k].0.Text(), second)
    ensures ReplaceSynonym(k, first + " " + second) == first + " " + second
  {
    KeysAreLetters(k);
    ReplaceNoPair(SYNONYMS[k].0, SYNONYMS[k].1, first, second);
  }

  lemma {:induction false} PairStays(b: nat, first: string, second: string, pair: string)
    requires b <= |SYNONYMS| && Unmoved(0, b, first) && Unmoved(0, b, second) && FirstStays(b, first) && pair == first + " " + second
    ensures Synonyms(b, pair) == pair
  {
    if b > 0 {
      var k: nat := b - 1;
      PairStays(k, first, second, pair);
      OneSynonym(k, pair);
      SynonymMissesPair(k, first, second);
    }
  }

  lemma WordsUnmoved(j: nat)
    requires j < |SYNONYMS|
    ensures SYNONYMS[j].0.One? ==> Unmoved(0, j, SYNONYMS[j].0.word)
  {
  }

  lemma ValuesUnmoved(j: nat)
    requires j < |SYNONYMS|
    ensures Unmoved(j + 1, |SYNONYMS|, SYNONYMS[j].1)
  {
  }

  lemma PairsUnmoved(j: nat)
    requires j < |SYNONYMS| && SYNONYMS[j].0.Two?
    ensures Unmoved(0, j, SYNONYMS[j].0.first) && Unmoved(0, j, SYNONYMS[j].0.second)
  {
  }

  lemma FirstsStay(j: nat)
    requires j < |SYNONYMS| && SYNONYMS[j].0.Two?
    ensures FirstStays(j, SYNONYMS[j].0.first)
  {
  }

  /** The synonyms before it leave a key alone. */
  lemma KeyStays(j: nat)
    requires j < |SYNONYMS|
    ensures Synonyms(j, SYNONYMS[j].0.Text()) == SYNONYMS[j].0.Text()
  {
    var key := SYNONYMS[j].0;
    if key.One? {
      WordsUnmoved(j);
      assert Synonyms(0, key.word) == key.word;
      WordStays(0, j, key.word, key.word);
    } else {
      PairsUnmoved(j);
      FirstsStay(j);
      PairStays(j, key.first, key.second, key.Text());
    }
  }

  lemma KeyReplaced(j: nat)
    requires j < |SYNONYMS|
    ensures ReplaceSynonym(j, SYNONYMS[j].0.Text()) == SYNONYMS[j].1
  {
    KeysAreLetters(j);
    ReplaceWhole(SYNONYMS[j].0, SYNONYMS[j].1);
  }

  /** What is said becomes what is meant, and stays so. */
  lemma SynonymMeant(j: nat)
    requires j < |SYNONYMS|
    ensures Synonyms(|SYNONYMS|, SYNONYMS[j].0.Text()) == SYNONYMS[j].1
  {
    var text, value := SYNONYMS[j].0.Text(), SYNONYMS[j].1;
    KeyStays(j);
    OneSynonym(j, text);
    KeyReplaced(j);
    ValuesUnmoved(j);
    WordStays(j + 1, |SYNONYMS|, text, value);
  }

  lemma SynonymListed(said: Phrase, meant: string) returns (j: nat)
    requires IsSynonym(said, meant)
    ensures j < |SYNONYMS| && SYNONYMS[j].0.Text() == Join(said) && SYNONYMS[j].1 == meant
  {
    j := if said == ["purchase", "spend"] then 0 else if said == ["invoice", "value"] then 1 else if said == ["order", "value"] then 2
         else if said == ["turnover"] then 3 else if said == ["sales"] then 4 else 5;
    if |said| == 2 {
      assert said[1..] == [said[1]];
    }
  }

  lemma SynonymPlain(said: Phrase, meant: string)
    requires IsSynonym(said, meant)
    ensures (forall k :: 0 <= k < |said| ==> IsPlain(said[k])) && IsWord(meant)
  {
  }

  lemma ApartPlain(ws: Phrase)
    requires ApartFromSynonyms(ws)
    ensures forall k :: 0 <= k < |ws| ==> IsPlain(ws[k])
  {
    assert AllApart(SYNONYMS[0].0, ws);
    assert forall k :: 0 <= k < |ws| ==> Apart(SYNONYMS[0].0, ws[k]);
  }

  lemma SaidMeans(said: Phrase, meant: string)
    requires IsSynonym(said, meant)
    ensures SynonymWords(said) == [meant]
  {
    var j := SynonymListed(said, meant);
    SynonymMeant(j);
    SynonymPlain(said, meant);
    SplitWord(IsSpace, "", meant);
    assert "" + meant == meant;
  }

  /** Between words that are apart from the synonyms, a synonym becomes what is meant, whatever the case of the question. */
  lemma SynonymKey(fs: Phrase, said: Phrase, meant: string, gs: Phrase, text: string)
    requires ApartFromSynonyms(fs) && ApartFromSynonyms(gs) && IsSynonym(said, meant) && SameName(text, Join(fs + said + gs))
    ensures QuestionKey(text) == Join(NormalForm(fs + [meant] + gs))
  {
    var ws := fs + said + gs;
    ApartPlain(fs);
    ApartPlain(gs);
    SynonymPlain(said, meant);
    JoinedPlain(ws);
    CleanedPlain(text, Join(ws));
    SplitJoin(ws);
    JoinedPlain(fs);
    JoinedPlain(gs);
    JoinedPlain(said);
    SynonymWordsAround(gs, fs + said);
    SynonymWordsAround(fs, said);
    SaidMeans(said, meant);
  }

  // ---- Any plain words ----

  /** What a word of its own means. */
  function Meaning(w: string): string {
    if w == "sales" || w == "turnover" then "revenue" else if w == "spend" then "purchase_value" else w
  }

  function Meanings(ws: Phrase): Phrase {
    seq(|ws|, i requires 0 <= i < |ws| => Meaning(ws[i]))
  }

  /** Two neighbouring words that hold, or reach over, a synonym of two words. */
  predicate ArePair(a: string, b: string) {
    || (EndsWith(a, "purchase") && "spend" <= b)
    || ((EndsWith(a, "invoice") || EndsWith(a, "order")) && "value" <= b)
  }

  predicate NoPairs(ws: Phrase) {
    forall i :: 0 <= i < |ws| - 1 ==> !ArePair(ws[i], ws[i + 1])
  }

  predicate AllWordChars(ws: Phrase) {
    forall i :: 0 <= i < |ws| ==> ws[i] != "" && WordChars(ws[i])
  }

  /** A key of two words that never joins two neighbours. */
  predicate Misses(key: Key, ws: Phrase) {
    key.Two? && LetterKey(key) && forall i :: 0 <= i < |ws| - 1 ==> !(EndsKey(key, ws[i]) && key.second <= ws[i + 1])
  }

  lemma PairInNoWord(key: Key, w: string)
    requires key.Two? && LetterKey(key) && WordChars(w)
    ensures !KeyAt(key, w)
  {
    assert forall i :: 0 <= i < |w| ==> IsWordChar(w[i]) && w[i] != ' ';
    assert key.Text()[|key.first|] == ' ';
  }

  lemma SecondInWord(key: Key, ws: Phrase)
    requires key.Two? && LetterKey(key) && ws != [] && AllWordChars(ws) && StartsKey(key, Join(ws))
    ensures key.second <= ws[0]
  {
    var b := Join(ws);
    assert b[..|ws[0]|] == ws[0] && (|b| > |ws[0]| ==> b[|ws[0]|] == ' ');
    assert forall k :: 0 <= k < |key.second| ==> b[k] == key.second[k] != ' ';
  }

  lemma {:induction false} PairLeaves(key: Key, value: string, ws: Phrase)
    requires Misses(key, ws) && AllWordChars(ws)
    ensures Replace(key, value, false, Join(ws)) == Join(ws)
  {
    if ws != [] {
      PairInNoWord(key, ws[0]);
      ReplaceNoWord(key, value, ws[0]);
      if |ws| > 1 {
        var rest := ws[1..];
        forall i | 0 <= i < |rest| - 1 ensures !(EndsKey(key, rest[i]) && key.second <= rest[i + 1]) {
          assert rest[i] == ws[i + 1] && rest[i + 1] == ws[i + 1 + 1];
        }
        PairLeaves(key, value, rest);
        if EndsKey(key, ws[0]) && StartsKey(key, Join(rest)) {
          SecondInWord(key, rest);
        }
        ReplaceOverSpace(key, value, false, ws[0], Join(rest));
      }
    }
  }

  /** The word replaced wherever it stands. */
  function Swapped(word: string, value: string, ws: Phrase): Phrase {
    seq(|ws|, i requires 0 <= i < |ws| => if ws[i] == word then value else ws[i])
  }

  lemma WordSwapped(key: Key, value: string, w: string)
    requires key.One? && LetterKey(key) && WordChars(w)
    ensures Replace(key, value, false, w) == if w == key.word then value else w
  {
    if w == key.word {
      ReplaceWhole(key, value);
    } else {
      assert forall i :: 0 <= i < |w| ==> IsWordChar(w[i]);
      ReplaceNoWord(key, value, w);
    }
  }

  lemma {:induction false} WordsSwapped(key: Key, value: string, ws: Phrase)
    requires key.One? && LetterKey(key) && AllWordChars(ws)
    ensures Replace(key, value, false, Join(ws)) == Join(Swapped(key.word, value, ws))
  {
    var next := Swapped(key.word, value, ws);
    if ws != [] {
      WordSwapped(key, value, ws[0]);
      if |ws| > 1 {
        WordsSwapped(key, value, ws[1..]);
        assert next[1..] == Swapped(key.word, value, ws[1..]);
        ReplaceOverSpace(key, value, false, ws[0], Join(ws[1..]));
      }
    }
  }

  lemma PairsMissed(k: nat, ws: Phrase)
    requires k < 3 && NoPairs(ws)
    ensures Misses(SYNONYMS[k].0, ws)
  {
    KeysAreLetters(k);
    assert forall i :: 0 <= i < |ws| - 1 ==> !ArePair(ws[i], ws[i + 1]);
  }

  lemma {:induction false} PairsLeave(k: nat, ws: Phrase)
    requires k <= 3 && NoPairs(ws) && AllWordChars(ws)
    ensures Synonyms(k, Join(ws)) == Join(ws)
  {
    if k > 0 {
      PairsLeave(k - 1, ws);
      OneSynonym(k - 1, Join(ws));
      PairsMissed(k - 1, ws);
      PairLeaves(SYNONYMS[k - 1].0, SYNONYMS[k - 1].1, ws);
    }
  }

  lemma SingleSynonyms()
    ensures SYNONYMS[3] == (One("turnover"), "revenue") && SYNONYMS[4] == (One("sales"), "revenue")
    ensures SYNONYMS[5] == (One("spend"), "purchase_value") && |SYNONYMS| == 6
  {
  }

  lemma SwapStep(k: nat, text: string, ws: Phrase)
    requires 3 <= k < |SYNONYMS| && SYNONYMS[k].0.One? && AllWordChars(ws) && Synonyms(k, text) == Join(ws)
    ensures Synonyms(k + 1, text) == Join(Swapped(SYNONYMS[k].0.word, SYNONYMS[k].1, ws))
    ensures AllWordChars(Swapped(SYNONYMS[k].0.word, SYNONYMS[k].1, ws))
  {
    OneSynonym(k, text);
    KeysAreLetters(k);
    WordsSwapped(SYNONYMS[k].0, SYNONYMS[k].1, ws);
    ValueWordChars(k);
  }

  lemma ValueWordChars(k: nat)
    requires k < |SYNONYMS|
    ensures SYNONYMS[k].1 != "" && WordChars(SYNONYMS[k].1)
  {
  }

  lemma SwappedMeans(ws: Phrase)
    ensures Swapped("spend", "purchase_value", Swapped("sales", "revenue", Swapped("turnover", "revenue", ws))) == Meanings(ws)
  {
  }

  lemma SynonymsMean(ws: Phrase)
    requires NoPairs(ws) && AllWordChars(ws)
    ensures Synonyms(|SYNONYMS|, Join(ws)) == Join(Meanings(ws)) && AllWordChars(Meanings(ws))
  {
    SingleSynonyms();
    PairsLeave(3, ws);
    SwapStep(3, Join(ws), ws);
    var one := Swapped("turnover", "revenue", ws);
    SwapStep(4, Join(ws), one);
    var two := Swapped("sales", "revenue", one);
    SwapStep(5, Join(ws), two);
    SwappedMeans(ws);
  }

  lemma WordCharsAreWords(ws: Phrase)
    requires AllWordChars(ws)
    ensures AllWords(ws)
  {
    forall i | 0 <= i < |ws| ensures IsWord(ws[i]) {
      forall k | 0 <= k < |ws[i]| ensures !IsSpace(ws[i][k]) {
        assert IsWordChar(ws[i][k]);
      }
    }
  }

  predicate ArePlain(ws: Phrase) {
    forall k :: 0 <= k < |ws| ==> IsPlain(ws[k])
  }

  lemma PlainText(ws: Phrase, text: string)
    requires ArePlain(ws) && SameName(text, Join(ws))
    ensures WordsOf(Clean(text)) == ws
  {
    JoinedPlain(ws);
    CleanedPlain(text, Join(ws));
    SplitJoin(ws);
  }

  lemma PlainMeans(ws: Phrase) returns (meant: Phrase)
    requires ArePlain(ws) && NoPairs(ws)
    ensures SynonymWords(ws) == meant == Meanings(ws)
  {
    meant := Meanings(ws);
    SynonymsMean(ws);
    WordCharsAreWords(Meanings(ws));
    SplitJoin(Meanings(ws));
  }

  lemma KeyOfWords(text: string, ws: Phrase, meant: Phrase)
    requires WordsOf(Clean(text)) == ws && SynonymWords(ws) == meant
    ensures QuestionKey(text) == Join(NormalForm(meant))
  {
  }

  /** The key of a question of plain words, in any case: every word by its meaning, without the polite phrases at the ends. No word that
      merely starts with a synonym is touched. */
  lemma WordsKey(ws: Phrase, text: string)
    requires ArePlain(ws) && NoPairs(ws) && SameName(text, Join(ws))
    ensures QuestionKey(text) == Join(NormalForm(Meanings(ws)))
  {
    PlainText(ws, text);
    var meant := PlainMeans(ws);
    KeyOfWords(text, ws, meant);
  }

  // ---- The documented paraphrase ----

  /** How keys start, and how their first words end. */
  lemma KeyEnds(k: nat)
    requires k < |SYNONYMS|
    ensures var key := SYNONYMS[k].0;
      && LetterKey(key) && |key.Text()| >= 2
      && (key.Text()[0] in {'p', 'i', 'o', 's'} || (key.Text()[0] == 't' && key.Text()[1] == 'u'))
      && (key.Two? ==> |key.second| >= 2 && key.second[0] in {'s', 'v'} && |key.first| >= 2
                       && key.first[|key.first| - 2..] in {"se", "ce", "er"})
  {
    KeysAreLetters(k);
  }

  /** A word that starts and ends otherwise. */
  predicate StandsApart(w: string) {
    && IsPlain(w) && |w| >= 2 && w[0] !in {'p', 'i', 'o', 's', 'v'} && (w[0] != 't' || w[1] != 'u')
    && w[|w| - 2..] !in {"se", "ce", "er"}
  }

  lemma StandsApartIsApart(k: nat, w: string)
    requires k < |SYNONYMS| && StandsApart(w)
    ensures Apart(SYNONYMS[k].0, w)
  {
    KeyEnds(k);
    var key := SYNONYMS[k].0;
    if key.Two? && |key.first| <= |w| {
      assert w[|w| - |key.first|..][|key.first| - 2..] == w[|w| - 2..];
    }
  }

  lemma AllStandApart(ws: Phrase)
    requires forall i :: 0 <= i < |ws| ==> StandsApart(ws[i])
    ensures ApartFromSynonyms(ws)
  {
    forall k | 0 <= k < |SYNONYMS| ensures AllApart(SYNONYMS[k].0, ws) {
      forall i | 0 <= i < |ws| ensures Apart(SYNONYMS[k].0, ws[i]) {
        StandsApartIsApart(k, ws[i]);
      }
    }
  }

  lemma WordsStandApart()
    ensures StandsApart("the") && StandsApart("revenue") && StandsApart("today")
  {
  }

  lemma FillerEnds(k: nat)
    requires k < |FILLERS|
    ensures 1 <= |FILLERS[k]| && FILLERS[k][0] in {"please", "can", "show", "give", "what", "tell"}
    ensures FILLERS[k][|FILLERS[k]| - 1] in {"please", "you", "me", "is", "are"}
  {
  }

  lemma NothingToStrip(ws: Phrase)
    requires |ws| >= 2 && ws[0] !in {"please", "can", "show", "give", "what", "tell"}
    requires ws[|ws| - 1] !in {"please", "you", "me", "is", "are"}
    ensures NormalForm(ws) == ws
  {
    forall k | 0 <= k < |FILLERS| ensures !IsPrefix(FILLERS[k], ws) && !IsSuffix(FILLERS[k], ws) {
      FillerEnds(k);
    }
    NormalIsFixed(ws);
  }

  /** After fillers: a synonym and words apart from the synonyms. */
  lemma RunSynonymKey(phrases: seq<Choice>, said: Phrase, meant: string, rest: Phrase, text: string)
    requires IsSynonym(said, meant) && ApartFromSynonyms(rest) && SameName(text, Join(Run(phrases) + said + rest))
    ensures QuestionKey(text) == Join(NormalForm([meant] + rest))
  {
    RunApart(phrases);
    SynonymKey(Run(phrases), said, meant, rest, text);
    Relational.Associative(Run(phrases), [meant], rest);
    RunKeepsNormalForm(phrases, [meant] + rest);
  }

  /** After fillers: only words apart from the synonyms. */
  lemma RunPlainKey(phrases: seq<Choice>, rest: Phrase, text: string)
    requires rest != [] && ApartFromSynonyms(rest) && SameName(text, Join(Run(phrases) + rest))
    ensures QuestionKey(text) == Join(NormalForm(rest))
  {
    RunApart(phrases);
    ApartAppend(Run(phrases), rest);
    PlainKey(Run(phrases) + rest, text);
    RunKeepsNormalForm(phrases, rest);
  }

  lemma RunsAre(one: seq<Choice>, two: seq<Choice>)
    requires one == [2] && two == [1, 6]
    ensures Run(one) == ["show", "me"] && Run(two) == ["can", "you", "tell", "me"]
  {
    assert one[1..] == [] && two[1..] == [6] && two[1..][1..] == [];
    assert FILLERS[1] == ["can", "you"] && FILLERS[2] == ["show", "me"] && FILLERS[6] == ["tell", "me"];
    assert Run(two) == FILLERS[1] + (FILLERS[6] + Run([]));
  }

  lemma TodayKeys(today: Phrase, rest: Phrase)
    requires today == ["today"] && rest == ["the", "revenue", "today"]
    ensures ApartFromSynonyms(today) && ApartFromSynonyms(rest)
    ensures NormalForm(["revenue"] + today) == ["revenue"] + today && NormalForm(rest) == rest
  {
    WordsStandApart();
    AllStandApart(today);
    AllStandApart(rest);
    NothingToStrip(["revenue"] + today);
    NothingToStrip(rest);
  }

  lemma LengthsDiffer(a: Phrase, b: Phrase)
    requires (forall w :: w in a || w in b ==> StandsApart(w)) && |a| != |b|
    ensures Join(a) != Join(b)
  {
    forall k | 0 <= k < |a| ensures IsPlain(a[k]) {
      assert a[k] in a;
    }
    forall k | 0 <= k < |b| ensures IsPlain(b[k]) {
      assert b[k] in b;
    }
    JoinedPlain(a);
    JoinedPlain(b);
    JoinInjective(a, b);
  }

  /** "show me sales today" and "can you tell me the revenue today", in any case, do not share a key as the documentation says they
      do: "the" is no filler. */
  lemma DocumentedParaphraseDiffers(a: string, b: string)
    requires SameName(a, Join(["show", "me"] + ["sales"] + ["today"]))
    requires SameName(b, Join(["can", "you", "tell", "me"] + ["the", "revenue", "today"]))
    ensures QuestionKey(a) != QuestionKey(b)
  {
    var one: seq<Choice>, two: seq<Choice>, today, rest := [2], [1, 6], ["today"], ["the", "revenue", "today"];
    RunsAre(one, two);
    TodayKeys(today, rest);
    WordsStandApart();
    LengthsDiffer(["revenue"] + today, rest);
    RunSynonymKey(one, ["sales"], "revenue", today, a);
    RunPlainKey(two, rest, b);
  }
}
