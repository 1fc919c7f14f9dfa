/** Words, and texts in which single spaces separate them. */
module Words {
  import opened Characters

  /** Splits at the characters in `sep`, dropping empty words; `cur` is the word being read. */
  function SplitFrom(sep: char -> bool, cur: string, s: string): seq<string>
    decreases |s|
  {
    if s == "" then (if cur == "" then [] else [cur])
    else if sep(s[0]) then (if cur == "" then [] else [cur]) + SplitFrom(sep, "", s[1..])
    else SplitFrom(sep, cur + [s[0]], s[1..])
  }

  /** `str.split()`. */
  function WordsOf(s: string): seq<string> {
    SplitFrom(IsSpace, "", s)
  }

  function Join(ws: seq<string>): string {
    if ws == [] then "" else if |ws| == 1 then ws[0] else ws[0] + " " + Join(ws[1..])
  }

  predicate IsWord(w: string) {
    w != "" && forall k :: 0 <= k < |w| ==> !IsSpace(w[k])
  }

  ghost predicate AllWords(ws: seq<string>) {
    forall k :: 0 <= k < |ws| ==> IsWord(ws[k])
  }

  lemma {:induction false} SplitAt(sep: char -> bool, cur: string, a: string, c: char, b: string)
    requires sep(c)
    ensures SplitFrom(sep, cur, a + [c] + b) == SplitFrom(sep, cur, a) + SplitFrom(sep, "", b)
    decreases |a|
  {
    if a == "" {
      assert a + [c] + b == [c] + b;
      assert ([c] + b)[1..] == b;
    } else {
      assert (a + [c] + b)[1..] == a[1..] + [c] + b;
      SplitAt(sep, if sep(a[0]) then "" else cur + [a[0]], a[1..], c, b);
    }
  }

  lemma {:induction false} SplitWord(sep: char -> bool, cur: string, w: string)
    requires forall k :: 0 <= k < |w| ==> !sep(w[k])
    ensures SplitFrom(sep, cur, w) == if cur + w == "" then [] else [cur + w]
    decreases |w|
  {
    if w == "" {
      assert cur + w == cur;
    } else {
      SplitWord(sep, cur + [w[0]], w[1..]);
      assert cur + [w[0]] + w[1..] == cur + w;
    }
  }

  lemma {:induction false} JoinAppend(a: seq<string>, b: seq<string>)
    requires a != [] && b != []
    ensures Join(a + b) == Join(a) + " " + Join(b)
  {
    if |a| == 1 {
      assert (a + b)[1..] == b;
    } else {
      JoinAppend(a[1..], b);
      assert (a + b)[1..] == a[1..] + b;
    }
  }

  /** Splitting undoes joining. */
  lemma {:induction false} SplitJoin(ws: seq<string>)
    requires AllWords(ws)
    ensures WordsOf(Join(ws)) == ws
  {
    if |ws| == 1 {
      SplitWord(IsSpace, "", ws[0]);
    } else if ws != [] {
      SplitJoin(ws[1..]);
      SplitAt(IsSpace, "", ws[0], ' ', Join(ws[1..]));
      SplitWord(IsSpace, "", ws[0]);
      assert "" + ws[0] == ws[0];
      assert ws == [ws[0]] + ws[1..];
    }
  }

  lemma JoinInjective(a: seq<string>, b: seq<string>)
    requires AllWords(a) && AllWords(b)
    ensures Join(a) == Join(b) <==> a == b
  {
    SplitJoin(a);
    SplitJoin(b);
  }

  lemma SplitSpace(a: string, b: string)
    ensures WordsOf(a + " " + b) == WordsOf(a) + WordsOf(b)
  {
    SplitAt(IsSpace, "", a, ' ', b);
  }

  /** A text starts with the words `p` and a space exactly when `p` is a proper prefix of its words. */
  lemma JoinPrefix(p: seq<string>, ws: seq<string>)
    requires AllWords(p) && AllWords(ws) && p != []
    ensures Join(p) + " " <= Join(ws) <==> p < ws
    ensures p < ws ==> Join(ws)[|Join(p)| + 1..] == Join(ws[|p|..])
  {
    if p < ws {
      assert ws == p + ws[|p|..];
      JoinAppend(p, ws[|p|..]);
    }
    if Join(p) + " " <= Join(ws) {
      var rest := Join(ws)[|Join(p)| + 1..];
      assert Join(ws) == Join(p) + " " + rest;
      SplitSpace(Join(p), rest);
      SplitJoin(p);
      SplitJoin(ws);
      NotAllSpace(ws, rest);
    }
  }

  /** A text ends with a space and the words `p` exactly when `p` is a proper suffix of its words. */
  lemma JoinSuffix(p: seq<string>, ws: seq<string>)
    requires AllWords(p) && AllWords(ws) && p != []
    ensures EndsWith(Join(ws), " " + Join(p)) <==> |p| < |ws| && ws[|ws| - |p|..] == p
    ensures |p| < |ws| && ws[|ws| - |p|..] == p ==> Join(ws)[..|Join(ws)| - |Join(p)| - 1] == Join(ws[..|ws| - |p|])
  {
    if |p| < |ws| && ws[|ws| - |p|..] == p {
      SuffixJoined(ws[..|ws| - |p|], p);
      assert ws == ws[..|ws| - |p|] + p;
    } else if EndsWith(Join(ws), " " + Join(p)) {
      SuffixSplit(p, ws);
    }
  }

  lemma SuffixJoined(front: seq<string>, p: seq<string>)
    requires front != [] && p != []
    ensures EndsWith(Join(front + p), " " + Join(p)) && Join(front + p)[..|Join(front + p)| - |Join(p)| - 1] == Join(front)
  {
    JoinAppend(front, p);
    assert Join(front + p) == Join(front) + (" " + Join(p));
  }

  lemma SuffixSplit(p: seq<string>, ws: seq<string>)
    requires AllWords(p) && AllWords(ws) && p != [] && EndsWith(Join(ws), " " + Join(p))
    ensures |p| < |ws| && ws[|ws| - |p|..] == p
  {
    var rest := Join(ws)[..|Join(ws)| - |Join(p)| - 1];
    assert Join(ws) == rest + (" " + Join(p));
    assert Join(ws) == rest + " " + Join(p);
    SplitSpace(rest, Join(p));
    SplitJoin(p);
    SplitJoin(ws);
    NotAllSpaceFront(ws, rest);
  }

  predicate EndsWith(s: string, suffix: string) {
    |suffix| <= |s| && s[|s| - |suffix|..] == suffix
  }

  lemma {:induction false} JoinEnds(ws: seq<string>)
    requires AllWords(ws) && ws != []
    ensures Join(ws) != "" && !IsSpace(Join(ws)[0]) && !IsSpace(Join(ws)[|Join(ws)| - 1])
  {
    if |ws| > 1 {
      JoinEnds(ws[1..]);
    }
  }

  lemma NotAllSpace(ws: seq<string>, rest: string)
    requires AllWords(ws) && |rest| < |Join(ws)| && rest == Join(ws)[|Join(ws)| - |rest|..] && Join(ws)[|Join(ws)| - |rest| - 1] == ' '
    ensures WordsOf(rest) != []
  {
    if ws != [] {
      JoinEnds(ws);
      assert rest != "";
      LastWord("", rest);
    }
  }

  lemma NotAllSpaceFront(ws: seq<string>, rest: string)
    requires AllWords(ws) && |rest| < |Join(ws)| && rest == Join(ws)[..|rest|] && Join(ws)[|rest|] == ' '
    ensures WordsOf(rest) != []
  {
    if ws != [] {
      JoinEnds(ws);
      assert rest != "" && rest[0] == Join(ws)[0];
      FirstWord("" + [rest[0]], rest[1..]);
    }
  }

  lemma {:induction false} LastWord(cur: string, s: string)
    requires s != "" && !IsSpace(s[|s| - 1])
    ensures SplitFrom(IsSpace, cur, s) != []
    decreases |s|
  {
    if |s| > 1 {
      LastWord(if IsSpace(s[0]) then "" else cur + [s[0]], s[1..]);
    }
  }

  lemma {:induction false} FirstWord(cur: string, s: string)
    requires cur != ""
    ensures SplitFrom(IsSpace, cur, s) != []
    decreases |s|
  {
    if s != "" && !IsSpace(s[0]) {
      FirstWord(cur + [s[0]], s[1..]);
    }
  }

  /** Stripping a text of words changes nothing. */
  lemma StripJoin(ws: seq<string>)
    requires AllWords(ws)
    ensures Strip(Join(ws)) == Join(ws)
  {
    if ws != [] {
      JoinEnds(ws);
    }
  }
}
