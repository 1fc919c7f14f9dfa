/** Python's string order, and `sorted` over a set of strings. */
module SortedStrings {

  /** String order by code point. */
  predicate StringLe(a: string, b: string) {
    a == [] || (b != [] && (a[0] < b[0] || (a[0] == b[0] && StringLe(a[1..], b[1..]))))
  }

  lemma StringLeTotal(a: string, b: string)
    ensures StringLe(a, b) || StringLe(b, a)
    ensures StringLe(a, b) && StringLe(b, a) ==> a == b
  {
    if a != [] && b != [] && a[0] == b[0] {
      StringLeTotal(a[1..], b[1..]);
      assert a == [a[0]] + a[1..] && b == [b[0]] + b[1..];
    }
  }

  lemma StringLeTransitive(a: string, b: string, c: string)
    requires StringLe(a, b) && StringLe(b, c)
    ensures StringLe(a, c)
  {
    if a != [] && b != [] && c != [] && a[0] == b[0] && b[0] == c[0] {
      StringLeTransitive(a[1..], b[1..], c[1..]);
    }
  }

  predicate IsLeast(x: string, s: set<string>) {
    x in s && forall y :: y in s ==> StringLe(x, y)
  }

  lemma LeastExists(s: set<string>)
    requires s != {}
    ensures exists x :: IsLeast(x, s)
  {
    var x :| x in s;
    StringLeTotal(x, x);
    if s != {x} {
      LeastExists(s - {x});
      var y :| IsLeast(y, s - {x});
      StringLeTotal(x, y);
      if StringLe(x, y) {
        forall z | z in s ensures StringLe(x, z) {
          if z != x {
            StringLeTransitive(x, y, z);
          }
        }
        assert IsLeast(x, s);
      } else {
        assert IsLeast(y, s);
      }
    } else {
      assert IsLeast(x, s);
    }
  }

  function Least(s: set<string>): (x: string)
    requires s != {}
    ensures IsLeast(x, s)
  {
    LeastExists(s);
    assert forall x, y :: IsLeast(x, s) && IsLeast(y, s) ==> x == y by {
      forall x, y | IsLeast(x, s) && IsLeast(y, s) ensures x == y { StringLeTotal(x, y); }
    }
    var x :| IsLeast(x, s);
    x
  }

  /** `sorted(codes)`. */
  function SortedCodes(s: set<string>): (r: seq<string>)
    ensures |r| == |s| && forall x :: x in r <==> x in s
    ensures forall a, b :: 0 <= a < b < |r| ==> StringLe(r[a], r[b])
    decreases |s|
  {
    if s == {} then [] else
      var x := Least(s);
      var rest := SortedCodes(s - {x});
      assert forall y :: y in [x] + rest <==> y in s;
      [x] + rest
  }
}
