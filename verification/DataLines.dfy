/** What the scrubber takes for data: the patterns of app/chat/answerer.py, read off the text. */
module DataLines {
  import opened Characters
  import opened Words
  import opened Regrouping
  import opened Totals
  import opened Answerer

  /** At least three spaces between two characters that are not spaces. */
  predicate GapAt(s: string, i: int, j: int) {
    && 0 <= i && i + 4 <= j < |s| && !IsSpace(s[i]) && !IsSpace(s[j])
    && forall k :: i < k < j ==> IsSpace(s[k])
  }

  lemma {:induction false} SpacesAre(s: string)
    ensures forall k :: 0 <= k < Spaces(s) ==> IsSpace(s[k])
  {
    if s != "" && IsSpace(s[0]) {
      SpacesAre(s[1..]);
      assert forall k :: 1 <= k < Spaces(s) ==> s[k] == s[1..][k - 1];
    }
  }

  lemma GapFirst(s: string)
    requires s != ""
    ensures (!IsSpace(s[0]) && 3 <= Spaces(s[1..]) < |s| - 1) <==> exists j :: GapAt(s, 0, j)
  {
    var n := Spaces(s[1..]);
    SpacesAre(s[1..]);
    if !IsSpace(s[0]) && 3 <= n < |s| - 1 {
      forall k | 0 < k < n + 1 ensures IsSpace(s[k]) {
        assert s[k] == s[1..][k - 1];
      }
      assert GapAt(s, 0, n + 1);
    }
    if j :| GapAt(s, 0, j) {
      assert forall k :: 0 < k < |s| ==> s[1..][k - 1] == s[k];
      assert j == n + 1;
    }
  }

  lemma {:induction false} AlignedIs(s: string)
    ensures HasAlignedColumns(s) <==> exists i, j :: GapAt(s, i, j)
  {
    if s != "" {
      AlignedIs(s[1..]);
      GapFirst(s);
      forall i, j ensures i > 0 ==> (GapAt(s, i, j) <==> GapAt(s[1..], i - 1, j - 1)) {
        if 0 < i <= j < |s| {
          assert forall k :: i <= k <= j ==> s[k] == s[1..][k - 1];
          assert forall k :: i - 1 <= k <= j - 1 ==> s[1..][k] == s[k + 1];
        }
      }
      if i, j :| GapAt(s[1..], i, j) {
        assert GapAt(s, i + 1, j + 1);
      }
    }
  }

  /** A number: digits and commas, then possibly a point and digits. */
  predicate IsNumberOf(t: string, n: int) {
    && 0 < n <= |t| && (forall k :: 0 <= k < n ==> IsDigit(t[k]) || t[k] == ',')
    && (n == |t| || (t[n] == '.' && n + 1 < |t| && forall k :: n < k < |t| ==> IsDigit(t[k])))
  }

  lemma NumberTextIs(t: string)
    ensures IsNumberText(t) <==> exists n :: IsNumberOf(t, n)
  {
    var r := RunLength(t);
    RunLengthEnds(t);
    assert forall k :: 0 <= k < r ==> t[k] == t[..r][k];
    if IsNumberText(t) {
      if r < |t| {
        assert forall k :: r < k < |t| ==> t[k] == t[r + 1..][k - r - 1];
      }
      assert IsNumberOf(t, r);
    }
    if n :| IsNumberOf(t, n) {
      assert forall k :: 0 <= k < n ==> InRun(t[k]);
      assert r == n;
      if n < |t| {
        assert forall k :: n < k < |t| ==> t[n + 1..][k - n - 1] == t[k];
      }
    }
  }

  lemma {:induction false} NumberEndIs(s: string)
    ensures EndsInNumber(s) <==> exists i, n :: 0 <= i <= |s| && IsNumberOf(s[i..], n)
  {
    NumberTextIs(s);
    assert s[0..] == s;
    if s != "" {
      NumberEndIs(s[1..]);
      forall i ensures 0 < i <= |s| ==> s[i..] == s[1..][i - 1..] {
      }
      if i, n :| 0 <= i <= |s| && IsNumberOf(s[i..], n) && !IsNumberText(s) {
        assert i > 0 ==> IsNumberOf(s[1..][i - 1..], n);
      }
      if i, n :| 0 <= i <= |s[1..]| && IsNumberOf(s[1..][i..], n) {
        assert s[i + 1..] == s[1..][i..];
        assert IsNumberOf(s[i + 1..], n);
      }
    }
  }

  /** A line is data when it starts with a pipe, has a wide gap, or has at most five words and a number at its end. */
  lemma DataLineIs(line: string)
    ensures var s := Strip(line);
      IsDataLine(line) <==>
        || (s != "" && s[0] == '|')
        || (exists i, j :: GapAt(s, i, j))
        || (|WordsOf(s)| <= 5 && exists i, n :: 0 <= i <= |s| && IsNumberOf(s[i..], n))
  {
    var s := Strip(line);
    AlignedIs(s);
    NumberEndIs(s);
    if s == "" {
      forall i, n | 0 <= i <= |s| ensures !IsNumberOf(s[i..], n) {
      }
    }
  }

  /** `sub` stands at position `i`. */
  predicate StandsHere(s: string, sub: string, i: int) {
    0 <= i <= |s| && sub <= s[i..]
  }

  lemma {:induction false} ContainsStands(s: string, sub: string)
    ensures Contains(s, sub) <==> exists i :: StandsHere(s, sub, i)
  {
    assert s[0..] == s;
    assert sub <= s <==> StandsHere(s, sub, 0);
    if s != "" {
      ContainsStands(s[1..], sub);
      forall i ensures i > 0 ==> (StandsHere(s, sub, i) <==> StandsHere(s[1..], sub, i - 1)) {
        assert 0 < i <= |s| ==> s[i..] == s[1..][i - 1..];
      }
      if i :| StandsHere(s[1..], sub, i) {
        assert StandsHere(s, sub, i + 1);
      }
    }
  }

  /** The first "[{" of the text. */
  ghost predicate IsFirstOpening(s: string, i: int) {
    StandsHere(s, "[{", i) && forall j :: 0 <= j < i ==> !StandsHere(s, "[{", j)
  }

  lemma HereLater(s: string, sub: string, i: int)
    requires s != "" && i > 0
    ensures StandsHere(s, sub, i) <==> StandsHere(s[1..], sub, i - 1)
  {
    assert i <= |s| ==> s[i..] == s[1..][i - 1..];
  }

  lemma {:induction false} NothingOpens(s: string)
    requires forall i :: !StandsHere(s, "[{", i)
    ensures CutTail(s) == s
  {
    if s != "" {
      assert s[0..] == s && !StandsHere(s, "[{", 0);
      forall i ensures !StandsHere(s[1..], "[{", i) {
        if i >= 0 {
          HereLater(s, "[{", i + 1);
        }
      }
      NothingOpens(s[1..]);
    }
  }

  lemma {:induction false} FirstOpens(s: string, i: nat)
    requires IsFirstOpening(s, i)
    ensures CutTail(s) == if Contains(s[i..], "}]") then s else s[..i]
  {
    assert s[0..] == s;
    if i > 0 {
      assert !StandsHere(s, "[{", 0);
      HereLater(s, "[{", i);
      forall j | 0 <= j < i - 1 ensures !StandsHere(s[1..], "[{", j) {
        HereLater(s, "[{", j + 1);
      }
      FirstOpens(s[1..], i - 1);
      assert s[1..][i - 1..] == s[i..] && s[..i] == [s[0]] + s[1..][..i - 1];
    }
  }

  /** The text is cut at its first "[{", unless a "}]" follows that. */
  lemma CutTailIs(s: string)
    ensures (forall i :: !StandsHere(s, "[{", i)) ==> CutTail(s) == s
    ensures forall i :: IsFirstOpening(s, i) ==> CutTail(s) == if exists j :: j >= i && StandsHere(s, "}]", j) then s else s[..i]
  {
    if forall i :: !StandsHere(s, "[{", i) {
      NothingOpens(s);
    }
    forall i | IsFirstOpening(s, i)
      ensures CutTail(s) == if exists j :: j >= i && StandsHere(s, "}]", j) then s else s[..i]
    {
      FirstOpens(s, i);
      ContainsStands(s[i..], "}]");
      assert forall j :: i <= j <= |s| ==> s[j..] == s[i..][j - i..];
      if j :| StandsHere(s[i..], "}]", j) {
        assert StandsHere(s, "}]", i + j);
      }
      if j :| j >= i && StandsHere(s, "}]", j) {
        assert StandsHere(s[i..], "}]", j - i);
      }
    }
  }
}
