/** The scope fingerprint: `rbac_fingerprint` of app/rbac/profiles.py, before it is digested. */
module Fingerprints {
  import opened Wrappers
  import opened Numerals
  import opened Profiles
  import opened SortedStrings

  // ---- Sorted lists of geo values ----

  function Insert(x: string, s: seq<string>): seq<string> {
    if s == [] || StringLe(x, s[0]) then [x] + s else [s[0]] + Insert(x, s[1..])
  }

  /** `sorted`. */
  function Sorted(s: seq<string>): seq<string> {
    if s == [] then [] else Insert(s[0], Sorted(s[1..]))
  }

  ghost predicate InOrder(s: seq<string>) {
    forall i, j :: 0 <= i < j < |s| ==> StringLe(s[i], s[j])
  }

  lemma FirstIsLeast(s: seq<string>, v: string)
    requires InOrder(s) && v in s
    ensures StringLe(s[0], v)
  {
    var j :| 0 <= j < |s| && s[j] == v;
    StringLeTotal(v, v);
  }

  lemma InOrderCons(h: string, t: seq<string>)
    requires InOrder(t) && forall v :: v in t ==> StringLe(h, v)
    ensures InOrder([h] + t)
  {
  }

  lemma {:induction false} InsertMembers(x: string, s: seq<string>)
    ensures multiset(Insert(x, s)) == multiset(s) + multiset{x}
  {
    if s != [] && !StringLe(x, s[0]) {
      InsertMembers(x, s[1..]);
      assert s == [s[0]] + s[1..];
    }
  }

  lemma {:induction false} InsertMeaning(x: string, s: seq<string>)
    requires InOrder(s)
    ensures InOrder(Insert(x, s)) && multiset(Insert(x, s)) == multiset(s) + multiset{x}
  {
    InsertMembers(x, s);
    if s == [] || StringLe(x, s[0]) {
      forall v | v in s ensures StringLe(x, v) {
        FirstIsLeast(s, v);
        StringLeTransitive(x, s[0], v);
      }
      InOrderCons(x, s);
    } else {
      InsertMeaning(x, s[1..]);
      StringLeTotal(x, s[0]);
      var t := Insert(x, s[1..]);
      forall v | v in t ensures StringLe(s[0], v) {
        assert v in multiset(t);
        InsertedAbove(s, x, v);
      }
      InOrderCons(s[0], t);
    }
  }

  lemma InsertedAbove(s: seq<string>, x: string, v: string)
    requires InOrder(s) && s != [] && StringLe(s[0], x) && v in multiset(s[1..]) + multiset{x}
    ensures StringLe(s[0], v)
  {
    if v != x {
      FirstIsLeast(s, v);
    }
  }

  lemma {:induction false} SortedMeaning(s: seq<string>)
    ensures InOrder(Sorted(s)) && multiset(Sorted(s)) == multiset(s)
  {
    if s != [] {
      SortedMeaning(s[1..]);
      InsertMeaning(s[0], Sorted(s[1..]));
      assert s == [s[0]] + s[1..];
    }
  }

  lemma {:induction false} SortedUnique(a: seq<string>, b: seq<string>)
    requires InOrder(a) && InOrder(b) && multiset(a) == multiset(b)
    ensures a == b
    decreases |a|
  {
    assert |multiset(a)| == |a| && |multiset(b)| == |b|;
    if a != [] {
      SameFirst(a, b);
      SameRest(a[0], a[1..], b[1..]);
      assert a == [a[0]] + a[1..] && b == [b[0]] + b[1..];
      SortedUnique(a[1..], b[1..]);
    }
  }

  lemma SameFirst(a: seq<string>, b: seq<string>)
    requires InOrder(a) && InOrder(b) && multiset(a) == multiset(b) && a != [] && b != []
    ensures a[0] == b[0] && multiset([a[0]] + a[1..]) == multiset([a[0]] + b[1..])
  {
    assert a[0] in multiset(b) && b[0] in multiset(a);
    FirstIsLeast(b, a[0]);
    FirstIsLeast(a, b[0]);
    StringLeTotal(a[0], b[0]);
    assert a == [a[0]] + a[1..] && b == [b[0]] + b[1..];
  }

  lemma SameRest(h: string, s: seq<string>, t: seq<string>)
    requires multiset([h] + s) == multiset([h] + t)
    ensures multiset(s) == multiset(t)
  {
    assert multiset([h] + s) == multiset{h} + multiset(s) && multiset([h] + t) == multiset{h} + multiset(t);
    assert multiset(s) == multiset([h] + s) - multiset{h} && multiset(t) == multiset([h] + t) - multiset{h};
  }

  // ---- Joining with a separator ----

  predicate Free(c: char, s: string) {
    c !in s
  }

  ghost predicate AllFree(c: char, ss: seq<string>) {
    forall k :: 0 <= k < |ss| ==> Free(c, ss[k])
  }

  function JoinWith(c: char, ss: seq<string>): string {
    if ss == [] then "" else if |ss| == 1 then ss[0] else ss[0] + [c] + JoinWith(c, ss[1..])
  }

  /** The first separator tells where the first part ends. */
  lemma FirstPart(c: char, x: string, a: string, y: string, b: string)
    requires Free(c, x) && Free(c, y) && x + [c] + a == y + [c] + b
    ensures x == y && a == b
  {
    var s := x + [c] + a;
    assert s[|x|] == c && s[|y|] == c;
    assert forall k :: 0 <= k < |x| ==> s[k] == x[k];
    assert forall k :: 0 <= k < |y| ==> s[k] == y[k];
    assert x == s[..|x|] == y && a == s[|x| + 1..] == b;
  }

  lemma NoPart(c: char, x: string, y: string, b: string)
    requires Free(c, x)
    ensures x != y + [c] + b
  {
    assert c in y + [c] + b;
  }

  /** Joining loses nothing, for lists that are not empty, of parts without the separator. */
  lemma {:induction false} JoinWithInjective(c: char, a: seq<string>, b: seq<string>)
    requires a != [] && b != [] && AllFree(c, a) && AllFree(c, b)
    ensures JoinWith(c, a) == JoinWith(c, b) <==> a == b
    decreases |a|
  {
    if JoinWith(c, a) == JoinWith(c, b) {
      if |a| > 1 && |b| > 1 {
        FirstPart(c, a[0], JoinWith(c, a[1..]), b[0], JoinWith(c, b[1..]));
        JoinWithInjective(c, a[1..], b[1..]);
        assert a == [a[0]] + a[1..] && b == [b[0]] + b[1..];
      } else if |a| == 1 && |b| > 1 {
        NoPart(c, a[0], b[0], JoinWith(c, b[1..]));
      } else if |b| == 1 && |a| > 1 {
        NoPart(c, b[0], a[0], JoinWith(c, a[1..]));
      }
    }
  }

  // ---- The fingerprint ----

  /** `str` of an int, or "" for None. */
  function LevelText(level: Option<int>): string {
    match level
    case None => ""
    case Some(n) => if n < 0 then "-" + Decimal(-n) else Decimal(n)
  }

  lemma {:induction false} DecimalDigits(n: nat)
    ensures forall k :: 0 <= k < |Decimal(n)| ==> '0' <= Decimal(n)[k] <= '9'
  {
    if n >= 10 {
      DecimalDigits(n / 10);
    }
  }

  function Magnitude(level: Option<int>): nat {
    if level.None? then 0 else if level.value < 0 then -level.value else level.value
  }

  lemma LevelTextInjective(a: Option<int>, b: Option<int>)
    ensures LevelText(a) == LevelText(b) <==> a == b
    ensures Free('|', LevelText(a))
  {
    DecimalDigits(Magnitude(a));
    DecimalDigits(Magnitude(b));
    ParseDecimal(Magnitude(a));
    ParseDecimal(Magnitude(b));
    var x, y := LevelText(a), LevelText(b);
    if a.Some? && b.Some? && a.value < 0 && b.value < 0 && x == y {
      assert x[1..] == Decimal(-a.value) && y[1..] == Decimal(-b.value);
    }
  }

  function Canonical(p: Profile): string {
    JoinWith('|', [p.role, LevelText(p.sfLevel), p.sfCode, p.geoCol, JoinWith(',', Sorted(p.geoVals))])
  }

  /** Everything but the user id, and the geo values in any order. */
  ghost predicate SameScope(p: Profile, q: Profile) {
    p.role == q.role && p.sfLevel == q.sfLevel && p.sfCode == q.sfCode && p.geoCol == q.geoCol
    && multiset(p.geoVals) == multiset(q.geoVals)
  }

  /** No field holds a separator, and the geo values are not just one empty value. */
  ghost predicate Separable(p: Profile) {
    && Free('|', p.role) && Free('|', p.sfCode) && Free('|', p.geoCol) && AllFree('|', p.geoVals) && AllFree(',', p.geoVals)
    && p.geoVals != [""]
  }

  lemma {:induction false} JoinedFree(c: char, d: char, ss: seq<string>)
    requires c != d && AllFree(d, ss)
    ensures Free(d, JoinWith(c, ss))
  {
    if |ss| > 1 {
      JoinedFree(c, d, ss[1..]);
    }
  }

  lemma SortedFree(c: char, ss: seq<string>)
    requires AllFree(c, ss)
    ensures AllFree(c, Sorted(ss))
  {
    SortedMeaning(ss);
    forall k | 0 <= k < |Sorted(ss)| ensures Free(c, Sorted(ss)[k]) {
      assert Sorted(ss)[k] in multiset(ss);
    }
  }

  lemma {:induction false} JoinedNothing(c: char, ss: seq<string>)
    ensures JoinWith(c, ss) == "" <==> ss == [] || ss == [""]
  {
  }

  lemma GeoTextMeaning(a: seq<string>, b: seq<string>)
    requires AllFree(',', a) && AllFree(',', b) && a != [""] && b != [""]
    ensures JoinWith(',', Sorted(a)) == JoinWith(',', Sorted(b)) <==> multiset(a) == multiset(b)
  {
    SortedMeaning(a);
    SortedMeaning(b);
    SortedFree(',', a);
    SortedFree(',', b);
    JoinedNothing(',', Sorted(a));
    JoinedNothing(',', Sorted(b));
    assert Sorted([""]) == [""];
    if multiset(a) == multiset(b) {
      SortedUnique(Sorted(a), Sorted(b));
    } else if Sorted(a) != [] && Sorted(b) != [] {
      JoinWithInjective(',', Sorted(a), Sorted(b));
    }
  }

  lemma CanonicalParts(p: Profile, q: Profile)
    requires Separable(p) && Separable(q)
    ensures Canonical(p) == Canonical(q) <==>
      p.role == q.role && LevelText(p.sfLevel) == LevelText(q.sfLevel) && p.sfCode == q.sfCode && p.geoCol == q.geoCol
      && JoinWith(',', Sorted(p.geoVals)) == JoinWith(',', Sorted(q.geoVals))
  {
    LevelTextInjective(p.sfLevel, q.sfLevel);
    LevelTextInjective(q.sfLevel, p.sfLevel);
    SortedFree('|', p.geoVals);
    SortedFree('|', q.geoVals);
    JoinedFree(',', '|', Sorted(p.geoVals));
    JoinedFree(',', '|', Sorted(q.geoVals));
    var a := [p.role, LevelText(p.sfLevel), p.sfCode, p.geoCol, JoinWith(',', Sorted(p.geoVals))];
    var b := [q.role, LevelText(q.sfLevel), q.sfCode, q.geoCol, JoinWith(',', Sorted(q.geoVals))];
    JoinWithInjective('|', a, b);
    assert a == b <==> a[0] == b[0] && a[1] == b[1] && a[2] == b[2] && a[3] == b[3] && a[4] == b[4];
  }

  /** Between profiles whose fields hold no separator and whose geo values are not just one empty value, the digested text is the same
      exactly for the same scope. */
  lemma SameTextSameScope(p: Profile, q: Profile)
    requires Separable(p) && Separable(q)
    ensures Canonical(p) == Canonical(q) <==> SameScope(p, q)
  {
    CanonicalParts(p, q);
    LevelTextInjective(p.sfLevel, q.sfLevel);
    GeoTextMeaning(p.geoVals, q.geoVals);
  }

  lemma SameGeoText(p: Profile, q: Profile)
    requires p.role == q.role && p.sfLevel == q.sfLevel && p.sfCode == q.sfCode && p.geoCol == q.geoCol
    requires JoinWith(',', Sorted(p.geoVals)) == JoinWith(',', Sorted(q.geoVals))
    ensures Canonical(p) == Canonical(q)
  {
  }

  lemma TwoValues(two: seq<string>)
    requires two == ["x", "y"]
    ensures Sorted(two) == two && JoinWith(',', two) == "x" + "," + "y"
  {
    assert two[1..] == ["y"] && two[1..][1..] == [];
    assert Sorted(two[1..]) == two[1..];
  }

  /** With separators inside fields, different scopes can digest the same text. */
  lemma SeparatorsCollide()
    ensures var p, q := Profile("u", "ASM", None, "", "g", ["x,y"]), Profile("v", "ASM", None, "", "g", ["x", "y"]);
      Canonical(p) == Canonical(q) && !SameScope(p, q)
  {
    var one, two := ["x,y"], ["x", "y"];
    assert one[1..] == [] && Sorted(one) == one && JoinWith(',', one) == "x,y";
    TwoValues(two);
    SameGeoText(Profile("u", "ASM", None, "", "g", one), Profile("v", "ASM", None, "", "g", two));
    assert |multiset(one)| == 1 && |multiset(two)| == 2;
  }

  /** No value and one empty value digest alike, without any separator. */
  lemma EmptyValueCollides()
    ensures var p, q := Profile("u", "ASM", None, "", "g", [""]), Profile("v", "ASM", None, "", "g", []);
      Canonical(p) == Canonical(q) && !SameScope(p, q)
  {
    assert Sorted([""]) == [""] && Sorted([]) == [];
    assert JoinWith(',', [""]) == "" == JoinWith(',', []);
    assert |multiset([""])| == 1;
  }
}
