/**
 Sequence algebra of joins: what filtering the output of a join says about its inputs.

 The join predicates are arbitrary functions, so nothing here depends on SQL expressions.
 */
module Relational {
  import opened Wrappers

  datatype Value = Null | Int(i: int) | Text(s: string)

  type Row = seq<Value>

  /** A relation with named columns; rows are positional. */
  datatype Relation = Relation(cols: seq<string>, rows: seq<Row>)

  /** One FROM item bound to one of its rows, or (row == None) null-extended by an outer join. */
  datatype Bind = Bind(alias: string, cols: seq<string>, row: Option<Row>)

  /** One bind per FROM item, in order. */
  type Frame = seq<Bind>

  // ---- Sequences ----

  function Filter<T>(p: T -> bool, s: seq<T>): seq<T> {
    if s == [] then [] else (if p(s[0]) then [s[0]] else []) + Filter(p, s[1..])
  }

  function Map<T, U>(f: T -> U, s: seq<T>): (r: seq<U>)
    ensures |r| == |s|
    ensures forall i :: 0 <= i < |s| ==> r[i] == f(s[i])
  {
    if s == [] then [] else [f(s[0])] + Map(f, s[1..])
  }

  lemma FilterStep<T>(p: T -> bool, s: seq<T>)
    requires s != []
    ensures !p(s[0]) ==> Filter(p, s) == Filter(p, s[1..])
    ensures p(s[0]) ==> Filter(p, s) != [] && Filter(p, s)[0] == s[0] && Filter(p, s)[1..] == Filter(p, s[1..])
    ensures Filter(p, [s[0]]) == if p(s[0]) then [s[0]] else []
  {
    assert [s[0]][1..] == [];
    assert Filter(p, [s[0]]) == (if p(s[0]) then [s[0]] else []) + [];
  }

  lemma FilterCons<T>(p: T -> bool, x: T, rest: seq<T>)
    ensures Filter(p, [x] + rest) == (if p(x) then [x] else []) + Filter(p, rest)
  {
    assert ([x] + rest)[1..] == rest;
  }

  lemma Associative<T>(a: seq<T>, b: seq<T>, c: seq<T>)
    ensures a + (b + c) == a + b + c
  {
  }

  lemma {:induction false} FilterAppend<T>(p: T -> bool, a: seq<T>, b: seq<T>)
    ensures Filter(p, a + b) == Filter(p, a) + Filter(p, b)
  {
    if a == [] {
      assert a + b == b;
    } else {
      FilterAppend(p, a[1..], b);
      assert a + b == [a[0]] + (a[1..] + b);
      FilterCons(p, a[0], a[1..] + b);
      Associative(if p(a[0]) then [a[0]] else [], Filter(p, a[1..]), Filter(p, b));
    }
  }

  lemma {:induction false} FilterCongruence<T>(p: T -> bool, q: T -> bool, s: seq<T>)
    requires forall x :: x in s ==> p(x) == q(x)
    ensures Filter(p, s) == Filter(q, s)
  {
    if s != [] {
      FilterCongruence(p, q, s[1..]);
    }
  }

  /** Filtering by a conjunction is filtering twice. */
  lemma {:induction false} FilterTwice<T>(p: T -> bool, q: T -> bool, both: T -> bool, s: seq<T>)
    requires forall x :: x in s ==> both(x) == (p(x) && q(x))
    ensures Filter(both, s) == Filter(q, Filter(p, s))
  {
    if s != [] {
      FilterTwice(p, q, both, s[1..]);
      FilterAppend(q, if p(s[0]) then [s[0]] else [], Filter(p, s[1..]));
    }
  }

  lemma FilterSwap<T>(p: T -> bool, q: T -> bool, s: seq<T>)
    ensures Filter(q, Filter(p, s)) == Filter(p, Filter(q, s))
  {
    var both := x => p(x) && q(x);
    FilterTwice(p, q, both, s);
    FilterTwice(q, p, both, s);
  }

  lemma {:induction false} FilterAll<T>(p: T -> bool, s: seq<T>)
    requires forall x :: x in s ==> p(x)
    ensures Filter(p, s) == s
  {
    if s != [] {
      FilterAll(p, s[1..]);
    }
  }

  lemma {:induction false} FilterMembers<T>(p: T -> bool, s: seq<T>)
    ensures forall x :: x in Filter(p, s) <==> x in s && p(x)
    ensures |Filter(p, s)| <= |s|
    ensures |Filter(p, s)| == |s| ==> Filter(p, s) == s
  {
    if s != [] {
      FilterMembers(p, s[1..]);
    }
  }

  // ---- Joins ----

  /** The extensions of one left frame by the candidates that satisfy the join condition. */
  function Extend(on: Frame -> bool, l: Frame, bs: seq<Bind>): seq<Frame> {
    if bs == [] then [] else
      (if on(l + [bs[0]]) then [l + [bs[0]]] else []) + Extend(on, l, bs[1..])
  }

  function InnerJoin(on: Frame -> bool, ls: seq<Frame>, bs: seq<Bind>): seq<Frame> {
    if ls == [] then [] else Extend(on, ls[0], bs) + InnerJoin(on, ls[1..], bs)
  }

  function LeftJoin(on: Frame -> bool, ls: seq<Frame>, bs: seq<Bind>, nul: Bind): seq<Frame> {
    if ls == [] then [] else
      var m := Extend(on, ls[0], bs);
      (if m == [] then [ls[0] + [nul]] else m) + LeftJoin(on, ls[1..], bs, nul)
  }

  /** The left frames that match one right candidate. */
  function Matches(on: Frame -> bool, ls: seq<Frame>, b: Bind): seq<Frame> {
    if ls == [] then [] else
      (if on(ls[0] + [b]) then [ls[0] + [b]] else []) + Matches(on, ls[1..], b)
  }

  /** Right-major join without null extension. */
  function RightMatches(on: Frame -> bool, ls: seq<Frame>, bs: seq<Bind>): seq<Frame> {
    if bs == [] then [] else Matches(on, ls, bs[0]) + RightMatches(on, ls, bs[1..])
  }

  function RightJoin(on: Frame -> bool, ls: seq<Frame>, bs: seq<Bind>, blank: Frame): seq<Frame> {
    if bs == [] then [] else
      var m := Matches(on, ls, bs[0]);
      (if m == [] then [blank + [bs[0]]] else m) + RightJoin(on, ls, bs[1..], blank)
  }

  datatype JoinKind = Inner | Cross | Left | Right

  function Join(kind: JoinKind, on: Frame -> bool, ls: seq<Frame>, bs: seq<Bind>, nul: Bind, blank: Frame): seq<Frame> {
    match kind
    case Inner => InnerJoin(on, ls, bs)
    case Cross => InnerJoin(on, ls, bs)
    case Left => LeftJoin(on, ls, bs, nul)
    case Right => RightJoin(on, ls, bs, blank)
  }

  // ---- Filtering a join whose test splits into a left and a right part ----

  ghost predicate Splits(ok: Frame -> bool, okL: Frame -> bool, okB: Bind -> bool) {
    forall l: Frame, b: Bind :: ok(l + [b]) == (okL(l) && okB(b))
  }

  lemma ExtendFirst(on: Frame -> bool, l: Frame, bs: seq<Bind>)
    requires bs != []
    ensures Extend(on, l, bs) == (if on(l + [bs[0]]) then [l + [bs[0]]] else []) + Extend(on, l, bs[1..])
  {
  }

  lemma {:induction false} FilterExtend(on: Frame -> bool, l: Frame, bs: seq<Bind>,
                                        ok: Frame -> bool, okL: Frame -> bool, okB: Bind -> bool)
    requires Splits(ok, okL, okB)
    ensures Filter(ok, Extend(on, l, bs)) == if okL(l) then Extend(on, l, Filter(okB, bs)) else []
  {
    if bs != [] {
      FilterExtend(on, l, bs[1..], ok, okL, okB);
      var x := l + [bs[0]];
      var head := if on(x) then [x] else [];
      FilterAppend(ok, head, Extend(on, l, bs[1..]));
      FilterStep(ok, [x]);
      FilterStep(okB, bs);
      if okB(bs[0]) {
        ExtendFirst(on, l, Filter(okB, bs));
      }
    }
  }

  lemma {:induction false} FilterInner(on: Frame -> bool, ls: seq<Frame>, bs: seq<Bind>,
                                       ok: Frame -> bool, okL: Frame -> bool, okB: Bind -> bool)
    requires Splits(ok, okL, okB)
    ensures Filter(ok, InnerJoin(on, ls, bs)) == InnerJoin(on, Filter(okL, ls), Filter(okB, bs))
  {
    if ls != [] {
      FilterInner(on, ls[1..], bs, ok, okL, okB);
      FilterExtend(on, ls[0], bs, ok, okL, okB);
      FilterAppend(ok, Extend(on, ls[0], bs), InnerJoin(on, ls[1..], bs));
      FilterStep(okL, ls);
    }
  }

  /** A test that null extension fails turns a left join into an inner join. */
  lemma {:induction false} FilterLeftStrict(on: Frame -> bool, ls: seq<Frame>, bs: seq<Bind>, nul: Bind,
                                            ok: Frame -> bool, okL: Frame -> bool, okB: Bind -> bool)
    requires Splits(ok, okL, okB) && !okB(nul)
    ensures Filter(ok, LeftJoin(on, ls, bs, nul)) == InnerJoin(on, Filter(okL, ls), Filter(okB, bs))
  {
    if ls != [] {
      FilterLeftStrict(on, ls[1..], bs, nul, ok, okL, okB);
      FilterExtend(on, ls[0], bs, ok, okL, okB);
      var m := Extend(on, ls[0], bs);
      FilterAppend(ok, if m == [] then [ls[0] + [nul]] else m, LeftJoin(on, ls[1..], bs, nul));
      FilterStep(ok, [ls[0] + [nul]]);
      FilterStep(okL, ls);
    }
  }

  /** A test that says nothing about the right side passes through a left join. */
  lemma {:induction false} FilterLeftFree(on: Frame -> bool, ls: seq<Frame>, bs: seq<Bind>, nul: Bind,
                                          ok: Frame -> bool, okL: Frame -> bool, okB: Bind -> bool)
    requires Splits(ok, okL, okB) && forall b :: okB(b)
    ensures Filter(ok, LeftJoin(on, ls, bs, nul)) == LeftJoin(on, Filter(okL, ls), bs, nul)
  {
    if ls != [] {
      FilterLeftFree(on, ls[1..], bs, nul, ok, okL, okB);
      FilterExtend(on, ls[0], bs, ok, okL, okB);
      FilterAll(okB, bs);
      var m := Extend(on, ls[0], bs);
      FilterAppend(ok, if m == [] then [ls[0] + [nul]] else m, LeftJoin(on, ls[1..], bs, nul));
      FilterStep(ok, [ls[0] + [nul]]);
      FilterStep(okL, ls);
    }
  }

  lemma {:induction false} FilterMatches(on: Frame -> bool, ls: seq<Frame>, b: Bind,
                                         ok: Frame -> bool, okL: Frame -> bool, okB: Bind -> bool)
    requires Splits(ok, okL, okB)
    ensures Filter(ok, Matches(on, ls, b)) == if okB(b) then Matches(on, Filter(okL, ls), b) else []
  {
    if ls != [] {
      FilterMatches(on, ls[1..], b, ok, okL, okB);
      var head := if on(ls[0] + [b]) then [ls[0] + [b]] else [];
      FilterAppend(ok, head, Matches(on, ls[1..], b));
      FilterStep(okL, ls);
    }
  }

  /** A test that a blank left frame fails drops every null-extended row of a right join. */
  lemma {:induction false} FilterRightStrict(on: Frame -> bool, ls: seq<Frame>, bs: seq<Bind>, blank: Frame,
                                             ok: Frame -> bool, okL: Frame -> bool, okB: Bind -> bool)
    requires Splits(ok, okL, okB) && !okL(blank)
    ensures Filter(ok, RightJoin(on, ls, bs, blank)) == RightMatches(on, Filter(okL, ls), Filter(okB, bs))
  {
    if bs != [] {
      FilterRightStrict(on, ls, bs[1..], blank, ok, okL, okB);
      FilterMatches(on, ls, bs[0], ok, okL, okB);
      var m := Matches(on, ls, bs[0]);
      FilterAppend(ok, if m == [] then [blank + [bs[0]]] else m, RightJoin(on, ls, bs[1..], blank));
      FilterStep(ok, [blank + [bs[0]]]);
      FilterStep(okB, bs);
    }
  }

  /** A test that says nothing about the left side passes through a right join. */
  lemma {:induction false} FilterRightFree(on: Frame -> bool, ls: seq<Frame>, bs: seq<Bind>, blank: Frame,
                                           ok: Frame -> bool, okL: Frame -> bool, okB: Bind -> bool)
    requires Splits(ok, okL, okB) && forall l :: okL(l)
    ensures Filter(ok, RightJoin(on, ls, bs, blank)) == RightJoin(on, ls, Filter(okB, bs), blank)
  {
    if bs != [] {
      FilterRightFree(on, ls, bs[1..], blank, ok, okL, okB);
      FilterMatches(on, ls, bs[0], ok, okL, okB);
      FilterAll(okL, ls);
      var m := Matches(on, ls, bs[0]);
      FilterAppend(ok, if m == [] then [blank + [bs[0]]] else m, RightJoin(on, ls, bs[1..], blank));
      FilterStep(ok, [blank + [bs[0]]]);
      FilterStep(okB, bs);
      assert okL(blank);
    }
  }

  // ---- Joins under two join conditions that agree everywhere ----

  ghost predicate SameTest(p: Frame -> bool, q: Frame -> bool) {
    forall f: Frame :: p(f) == q(f)
  }

  lemma {:induction false} ExtendCongruence(p: Frame -> bool, q: Frame -> bool, l: Frame, bs: seq<Bind>)
    requires SameTest(p, q)
    ensures Extend(p, l, bs) == Extend(q, l, bs)
  {
    if bs != [] {
      ExtendCongruence(p, q, l, bs[1..]);
    }
  }

  lemma {:induction false} LeftMajorCongruence(p: Frame -> bool, q: Frame -> bool,
                                               ls: seq<Frame>, bs: seq<Bind>, nul: Bind)
    requires SameTest(p, q)
    ensures InnerJoin(p, ls, bs) == InnerJoin(q, ls, bs)
    ensures LeftJoin(p, ls, bs, nul) == LeftJoin(q, ls, bs, nul)
  {
    if ls != [] {
      ExtendCongruence(p, q, ls[0], bs);
      LeftMajorCongruence(p, q, ls[1..], bs, nul);
    }
  }

  lemma {:induction false} MatchesCongruence(p: Frame -> bool, q: Frame -> bool, ls: seq<Frame>, b: Bind)
    requires SameTest(p, q)
    ensures Matches(p, ls, b) == Matches(q, ls, b)
  {
    if ls != [] {
      MatchesCongruence(p, q, ls[1..], b);
    }
  }

  lemma {:induction false} RightMajorCongruence(p: Frame -> bool, q: Frame -> bool,
                                                ls: seq<Frame>, bs: seq<Bind>, blank: Frame)
    requires SameTest(p, q)
    ensures RightMatches(p, ls, bs) == RightMatches(q, ls, bs)
    ensures RightJoin(p, ls, bs, blank) == RightJoin(q, ls, bs, blank)
  {
    if bs != [] {
      MatchesCongruence(p, q, ls, bs[0]);
      RightMajorCongruence(p, q, ls, bs[1..], blank);
    }
  }

  lemma JoinCongruence(kind: JoinKind, p: Frame -> bool, q: Frame -> bool, ls: seq<Frame>, bs: seq<Bind>, nul: Bind, blank: Frame)
    requires SameTest(p, q)
    ensures Join(kind, p, ls, bs, nul, blank) == Join(kind, q, ls, bs, nul, blank)
  {
    LeftMajorCongruence(p, q, ls, bs, nul);
    RightMajorCongruence(p, q, ls, bs, blank);
  }

  /** What a join leaves after filtering is determined by what filtering leaves of its inputs, provided a test that a
      null-extended side passes says nothing about that side. */
  lemma FilteredJoin(kind: JoinKind, p: Frame -> bool, q: Frame -> bool, ls: seq<Frame>, ls': seq<Frame>,
                     bs: seq<Bind>, bs': seq<Bind>, nul: Bind, blank: Frame,
                     ok: Frame -> bool, okL: Frame -> bool, okB: Bind -> bool)
    requires Splits(ok, okL, okB) && SameTest(p, q)
    requires okB(nul) ==> forall b :: okB(b)
    requires okL(blank) ==> forall l :: okL(l)
    requires Filter(okL, ls) == Filter(okL, ls') && Filter(okB, bs) == Filter(okB, bs')
    ensures Filter(ok, Join(kind, p, ls, bs, nul, blank)) == Filter(ok, Join(kind, q, ls', bs', nul, blank))
  {
    JoinCongruence(kind, p, q, ls, bs, nul, blank);
    if kind.Left? {
      if okB(nul) {
        FilterAll(okB, bs);
        FilterAll(okB, bs');
        FilterLeftFree(q, ls, bs, nul, ok, okL, okB);
        FilterLeftFree(q, ls', bs', nul, ok, okL, okB);
      } else {
        FilterLeftStrict(q, ls, bs, nul, ok, okL, okB);
        FilterLeftStrict(q, ls', bs', nul, ok, okL, okB);
      }
    } else if kind.Right? {
      if okL(blank) {
        FilterAll(okL, ls);
        FilterAll(okL, ls');
        FilterRightFree(q, ls, bs, blank, ok, okL, okB);
        FilterRightFree(q, ls', bs', blank, ok, okL, okB);
      } else {
        FilterRightStrict(q, ls, bs, blank, ok, okL, okB);
        FilterRightStrict(q, ls', bs', blank, ok, okL, okB);
      }
    } else {
      FilterInner(q, ls, bs, ok, okL, okB);
      FilterInner(q, ls', bs', ok, okL, okB);
    }
  }

  // ---- Properties that all frames of a join inherit ----

  lemma {:induction false} ExtendAll(on: Frame -> bool, l: Frame, bs: seq<Bind>, ok: Frame -> bool)
    requires forall b :: b in bs ==> ok(l + [b])
    ensures forall f :: f in Extend(on, l, bs) ==> ok(f)
  {
    if bs != [] {
      ExtendAll(on, l, bs[1..], ok);
    }
  }

  lemma {:induction false} MatchesAll(on: Frame -> bool, ls: seq<Frame>, b: Bind, ok: Frame -> bool)
    requires forall l :: l in ls ==> ok(l + [b])
    ensures forall f :: f in Matches(on, ls, b) ==> ok(f)
  {
    if ls != [] {
      MatchesAll(on, ls[1..], b, ok);
    }
  }

  lemma {:induction false} LeftMajorAll(on: Frame -> bool, ls: seq<Frame>, bs: seq<Bind>, nul: Bind, ok: Frame -> bool)
    requires forall l, b :: l in ls && b in bs ==> ok(l + [b])
    ensures forall f :: f in InnerJoin(on, ls, bs) ==> ok(f)
    ensures (forall l :: l in ls ==> ok(l + [nul])) ==> forall f :: f in LeftJoin(on, ls, bs, nul) ==> ok(f)
  {
    if ls != [] {
      assert ls[0] in ls && forall l :: l in ls[1..] ==> l in ls;
      ExtendAll(on, ls[0], bs, ok);
      LeftMajorAll(on, ls[1..], bs, nul, ok);
    }
  }

  lemma {:induction false} RightMajorAll(on: Frame -> bool, ls: seq<Frame>, bs: seq<Bind>, blank: Frame, ok: Frame -> bool)
    requires forall l, b :: l in ls && b in bs ==> ok(l + [b])
    requires forall b :: b in bs ==> ok(blank + [b])
    ensures forall f :: f in RightJoin(on, ls, bs, blank) ==> ok(f)
  {
    if bs != [] {
      MatchesAll(on, ls, bs[0], ok);
      RightMajorAll(on, ls, bs[1..], blank, ok);
    }
  }

  lemma JoinAll(kind: JoinKind, on: Frame -> bool, ls: seq<Frame>, bs: seq<Bind>, nul: Bind, blank: Frame, ok: Frame -> bool)
    requires forall l, b :: l in ls && b in bs ==> ok(l + [b])
    requires kind.Left? ==> forall l :: l in ls ==> ok(l + [nul])
    requires kind.Right? ==> forall b :: b in bs ==> ok(blank + [b])
    ensures forall f :: f in Join(kind, on, ls, bs, nul, blank) ==> ok(f)
  {
    LeftMajorAll(on, ls, bs, nul, ok);
    if kind.Right? {
      RightMajorAll(on, ls, bs, blank, ok);
    }
  }
}
