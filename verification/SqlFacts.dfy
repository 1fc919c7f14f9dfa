/** When two evaluations agree. */
module SqlFacts {
  import opened Wrappers
  import opened Relational
  import opened Sql

  // ---- The queries nested in a node ----

  predicate QueryIn(e: Expr, q: nat)
    decreases e
  {
    match e
    case Call(_, args) => QueryAmong(args, q)
    case Compare(_, l, r) => QueryIn(l, q) || QueryIn(r, q)
    case And(l, r) => QueryIn(l, q) || QueryIn(r, q)
    case Or(l, r) => QueryIn(l, q) || QueryIn(r, q)
    case Not(a) => QueryIn(a, q)
    case IsNull(a) => QueryIn(a, q)
    case In(a, list) => QueryIn(a, q) || QueryAmong(list, q)
    case InQuery(a, query) => query == q || QueryIn(a, q)
    case Exists(query) => query == q
    case Scalar(query) => query == q
    case _ => false
  }

  predicate QueryAmong(es: Exprs, q: nat)
    decreases es
  {
    match es
    case Nil => false
    case Cons(e, rest) => QueryIn(e, q) || QueryAmong(rest, q)
  }

  predicate ItemsQuery(items: seq<Item>, q: nat) {
    items != [] && (QueryIn(items[0].e, q) || ItemsQuery(items[1..], q))
  }

  predicate FromQuery(item: FromItem, q: nat) {
    (item.source.Derived? && item.source.query == q) || (item.on.Some? && QueryIn(item.on.value, q))
  }

  predicate NodeQuery(n: Node, q: nat) {
    match n
    case Select(items, from, filter, _, keys, _, _, _) =>
      || (items.Some? && ItemsQuery(items.value, q)) || (filter.Some? && QueryIn(filter.value, q)) || ItemsQuery(keys, q)
      || exists j :: 0 <= j < |from| && FromQuery(from[j], q)
    case Union(l, r, _, keys, _, _, _) => q == l || q == r || ItemsQuery(keys, q)
    case Statement(_) => false
  }

  // ---- Two contexts whose nested queries agree evaluate expressions alike ----

  ghost predicate SameShape(c: Ctx, d: Ctx) {
    c.w == d.w && c.t.cols == d.t.cols && c.t.lits == d.t.lits && |c.t.nodes| == |d.t.nodes|
  }

  ghost predicate SameBelow(c: Ctx, d: Ctx, i: nat)
    requires SameShape(c, d)
  {
    forall k, env :: i < k < |c.t.nodes| ==> EvalNode(c, k, env) == EvalNode(d, k, env)
  }

  ghost predicate SameQuery(c: Ctx, d: Ctx, i: nat, q: nat)
    requires SameShape(c, d) && i < |c.t.nodes|
  {
    forall env :: EvalSub(c, i, q, env) == EvalSub(d, i, q, env)
  }

  /** The queries nested in a node agree. */
  ghost predicate SameNested(c: Ctx, d: Ctx, i: nat, n: Node)
    requires SameShape(c, d) && i < |c.t.nodes|
  {
    forall q :: NodeQuery(n, q) ==> SameQuery(c, d, i, q)
  }

  lemma BelowIsNested(c: Ctx, d: Ctx, i: nat)
    requires SameShape(c, d) && i < |c.t.nodes| && SameBelow(c, d, i)
    ensures forall q :: SameQuery(c, d, i, q)
  {
    forall q, env ensures EvalSub(c, i, q, env) == EvalSub(d, i, q, env) {
    }
  }

  lemma {:induction false} ExprSame(c: Ctx, d: Ctx, i: nat, env: Env, e: Expr)
    requires SameShape(c, d) && i < |c.t.nodes| && forall q :: QueryIn(e, q) ==> SameQuery(c, d, i, q)
    ensures EvalExpr(c, i, env, e) == EvalExpr(d, i, env, e)
    decreases e
  {
    match e
    case Lit(_) =>
    case Col(_) =>
    case Built(_) =>
    case Field(_, _) =>
    case Call(_, args) => ExprsSame(c, d, i, env, args);
    case Compare(_, l, r) => ExprSame(c, d, i, env, l); ExprSame(c, d, i, env, r);
    case And(l, r) => ExprSame(c, d, i, env, l); ExprSame(c, d, i, env, r);
    case Or(l, r) => ExprSame(c, d, i, env, l); ExprSame(c, d, i, env, r);
    case Not(a) => ExprSame(c, d, i, env, a);
    case IsNull(a) => ExprSame(c, d, i, env, a);
    case In(a, list) => ExprSame(c, d, i, env, a); ExprsSame(c, d, i, env, list);
    case InQuery(a, q) => ExprSame(c, d, i, env, a); assert QueryIn(e, q) && EvalSub(c, i, q, env) == EvalSub(d, i, q, env);
    case Exists(q) => assert QueryIn(e, q) && EvalSub(c, i, q, env) == EvalSub(d, i, q, env);
    case Scalar(q) => assert QueryIn(e, q) && EvalSub(c, i, q, env) == EvalSub(d, i, q, env);
  }

  lemma {:induction false} ExprsSame(c: Ctx, d: Ctx, i: nat, env: Env, es: Exprs)
    requires SameShape(c, d) && i < |c.t.nodes| && forall q :: QueryAmong(es, q) ==> SameQuery(c, d, i, q)
    ensures EvalExprs(c, i, env, es) == EvalExprs(d, i, env, es)
    decreases es
  {
    match es
    case Nil =>
    case Cons(e, rest) => ExprSame(c, d, i, env, e); ExprsSame(c, d, i, env, rest);
  }

  lemma HoldsSame(c: Ctx, d: Ctx, i: nat, env: Env, cond: Option<Expr>)
    requires SameShape(c, d) && i < |c.t.nodes| && (cond.Some? ==> forall q :: QueryIn(cond.value, q) ==> SameQuery(c, d, i, q))
    ensures forall f :: Holds(c, i, env, cond, f) == Holds(d, i, env, cond, f)
  {
    if cond.Some? {
      forall f ensures Holds(c, i, env, cond, f) == Holds(d, i, env, cond, f) {
        ExprSame(c, d, i, f + env, cond.value);
      }
    }
  }

  lemma HoldsBelow(c: Ctx, d: Ctx, i: nat, env: Env, cond: Option<Expr>)
    requires SameShape(c, d) && i < |c.t.nodes| && SameBelow(c, d, i)
    ensures forall f :: Holds(c, i, env, cond, f) == Holds(d, i, env, cond, f)
  {
    BelowIsNested(c, d, i);
    HoldsSame(c, d, i, env, cond);
  }

  lemma {:induction false} ItemRowSame(c: Ctx, d: Ctx, i: nat, env: Env, items: seq<Item>)
    requires SameShape(c, d) && i < |c.t.nodes| && forall q :: ItemsQuery(items, q) ==> SameQuery(c, d, i, q)
    ensures ItemRow(c, i, env, items) == ItemRow(d, i, env, items)
  {
    if items != [] {
      ExprSame(c, d, i, env, items[0].e);
      ItemRowSame(c, d, i, env, items[1..]);
    }
  }

  /** The nodes differ in WHERE at most. */
  ghost predicate SameButFilter(c: Ctx, d: Ctx, i: nat) {
    c.IsSelect(i) && d.IsSelect(i) && c.t.nodes[i] == d.t.nodes[i].(filter := c.t.nodes[i].filter)
  }

  /** Equal kept frames give equal results. */
  lemma SelectSame(c: Ctx, d: Ctx, i: nat, env: Env)
    requires SameShape(c, d) && SameButFilter(c, d, i) && SameBelow(c, d, i)
    requires Kept(c, i, env) == Kept(d, i, env)
    requires OutputCols(c, i, env) == OutputCols(d, i, env)
    ensures EvalNode(c, i, env) == EvalNode(d, i, env)
  {
    BelowIsNested(c, d, i);
    ShownSame(c, d, i, env, Kept(c, i, env));
  }

  lemma ShownSame(c: Ctx, d: Ctx, i: nat, env: Env, frames: seq<Frame>)
    requires SameShape(c, d) && c.IsSelect(i) && d.IsSelect(i) && SameNested(c, d, i, c.t.nodes[i])
    requires c.t.nodes[i].items == d.t.nodes[i].items && c.t.nodes[i].keys == d.t.nodes[i].keys
    ensures Map((f: Frame) => Shown(OutputRow(c, i, env, f), ItemRow(c, i, f + env, c.t.nodes[i].keys)), frames)
         == Map((f: Frame) => Shown(OutputRow(d, i, env, f), ItemRow(d, i, f + env, d.t.nodes[i].keys)), frames)
  {
    var a := (f: Frame) => Shown(OutputRow(c, i, env, f), ItemRow(c, i, f + env, c.t.nodes[i].keys));
    var b := (f: Frame) => Shown(OutputRow(d, i, env, f), ItemRow(d, i, f + env, d.t.nodes[i].keys));
    forall f: Frame ensures a(f) == b(f) {
      ItemRowSame(c, d, i, f + env, c.t.nodes[i].keys);
      if c.t.nodes[i].items.Some? {
        ItemRowSame(c, d, i, f + env, c.t.nodes[i].items.value);
      }
    }
    MapSame(a, b, frames);
  }

  lemma {:induction false} MapSame<T(!new), U>(f: T -> U, g: T -> U, s: seq<T>)
    requires forall x :: f(x) == g(x)
    ensures Map(f, s) == Map(g, s)
  {
    if s != [] {
      MapSame(f, g, s[1..]);
    }
  }

  lemma UnionShownSame(c: Ctx, d: Ctx, i: nat, env: Env, cols: seq<string>, rows: seq<Row>)
    requires SameShape(c, d) && i < |c.t.nodes| && c.t.nodes[i].Union? && d.t.nodes[i].Union? && SameNested(c, d, i, c.t.nodes[i])
    requires c.t.nodes[i].keys == d.t.nodes[i].keys
    ensures Map((row: Row) => Shown(row, ItemRow(c, i, [Bind("", cols, Some(row))] + env, c.t.nodes[i].keys)), rows)
         == Map((row: Row) => Shown(row, ItemRow(d, i, [Bind("", cols, Some(row))] + env, d.t.nodes[i].keys)), rows)
  {
    var a := (row: Row) => Shown(row, ItemRow(c, i, [Bind("", cols, Some(row))] + env, c.t.nodes[i].keys));
    var b := (row: Row) => Shown(row, ItemRow(d, i, [Bind("", cols, Some(row))] + env, d.t.nodes[i].keys));
    forall row: Row ensures a(row) == b(row) {
      ItemRowSame(c, d, i, [Bind("", cols, Some(row))] + env, c.t.nodes[i].keys);
    }
    MapSame(a, b, rows);
  }

  lemma UnionSame(c: Ctx, d: Ctx, i: nat, env: Env)
    requires SameShape(c, d) && i < |c.t.nodes| && SameBelow(c, d, i)
    requires !c.t.nodes[i].Select? && c.t.nodes[i] == d.t.nodes[i]
    ensures EvalNode(c, i, env) == EvalNode(d, i, env)
  {
    BelowIsNested(c, d, i);
    UnionShaped(c, d, i, env);
  }

  lemma UnionShaped(c: Ctx, d: Ctx, i: nat, env: Env)
    requires SameShape(c, d) && i < |c.t.nodes| && SameNested(c, d, i, c.t.nodes[i])
    requires !c.t.nodes[i].Select? && SameButLimit(c.t.nodes[i], d.t.nodes[i])
    ensures Shaped(c, i, env) == Shaped(d, i, env)
  {
    var n := c.t.nodes[i];
    if n.Union? {
      assert NodeQuery(n, n.left) && NodeQuery(n, n.right);
      assert EvalSub(c, i, n.left, env) == EvalSub(d, i, n.left, env) && EvalSub(c, i, n.right, env) == EvalSub(d, i, n.right, env);
      var left, right := EvalSub(c, i, n.left, env), EvalSub(c, i, n.right, env);
      UnionShownSame(c, d, i, env, left.cols, left.rows + right.rows);
    }
  }

  // ---- Equal nodes over databases that agree on the tables of the node ----

  function SourceKey(src: Source): string
    requires src.Base?
  {
    if src.schema == "" then src.name else src.schema + "." + src.name
  }

  /** Both databases hold the same under this name, or nothing. */
  predicate Agree(db: Database, db': Database, name: string) {
    (name in db <==> name in db') && (name in db ==> db[name] == db'[name])
  }

  predicate AgreeOnTables(db: Database, db': Database, from: seq<FromItem>) {
    forall j :: 0 <= j < |from| && from[j].source.Base? ==> Agree(db, db', SourceKey(from[j].source))
  }

  lemma SourceSame(c: Ctx, d: Ctx, i: nat, env: Env, k: nat)
    requires SameShape(c, d) && c.IsSelect(i) && k < |c.t.nodes[i].from| && SameNested(c, d, i, c.t.nodes[i])
    requires AgreeOnTables(c.db, d.db, c.t.nodes[i].from)
    ensures SourceRelation(c, i, env, c.t.nodes[i].from[k].source) == SourceRelation(d, i, env, c.t.nodes[i].from[k].source)
  {
    var item := c.t.nodes[i].from[k];
    if item.source.Derived? {
      assert FromQuery(item, item.source.query) && NodeQuery(c.t.nodes[i], item.source.query);
      assert EvalSub(c, i, item.source.query, env) == EvalSub(d, i, item.source.query, env);
    } else {
      assert Agree(c.db, d.db, SourceKey(item.source));
    }
  }

  lemma {:induction false} BlankSame(c: Ctx, d: Ctx, i: nat, env: Env, k: nat)
    requires SameShape(c, d) && c.IsSelect(i) && d.IsSelect(i) && SameNested(c, d, i, c.t.nodes[i])
    requires c.t.nodes[i].from == d.t.nodes[i].from && k <= |c.t.nodes[i].from| && AgreeOnTables(c.db, d.db, c.t.nodes[i].from)
    ensures Blank(c, i, env, k) == Blank(d, i, env, k)
  {
    if k > 0 {
      BlankSame(c, d, i, env, k - 1);
      SourceSame(c, d, i, env, k - 1);
    }
  }

  lemma {:induction false} FramesSame(c: Ctx, d: Ctx, i: nat, env: Env, k: nat)
    requires SameShape(c, d) && c.IsSelect(i) && d.IsSelect(i) && SameNested(c, d, i, c.t.nodes[i])
    requires c.t.nodes[i].from == d.t.nodes[i].from && k <= |c.t.nodes[i].from| && AgreeOnTables(c.db, d.db, c.t.nodes[i].from)
    ensures Frames(c, i, env, k) == Frames(d, i, env, k)
  {
    if k > 0 {
      var item := c.t.nodes[i].from[k - 1];
      FramesSame(c, d, i, env, k - 1);
      SourceSame(c, d, i, env, k - 1);
      BlankSame(c, d, i, env, k - 1);
      OnSame(c, d, i, env, k - 1);
      var alias, rel := item.source.AliasOrName(), SourceRelation(c, i, env, item.source);
      JoinCongruence(item.kind, f => Holds(c, i, env, item.on, f), f => Holds(d, i, env, item.on, f),
                     Frames(c, i, env, k - 1), Binds(alias, rel), NullBind(alias, rel), Blank(c, i, env, k - 1));
    }
  }

  lemma OnSame(c: Ctx, d: Ctx, i: nat, env: Env, k: nat)
    requires SameShape(c, d) && c.IsSelect(i) && k < |c.t.nodes[i].from| && SameNested(c, d, i, c.t.nodes[i])
    ensures forall f :: Holds(c, i, env, c.t.nodes[i].from[k].on, f) == Holds(d, i, env, c.t.nodes[i].from[k].on, f)
  {
    var item := c.t.nodes[i].from[k];
    if item.on.Some? {
      forall q | QueryIn(item.on.value, q) ensures SameQuery(c, d, i, q) {
        assert FromQuery(item, q) && NodeQuery(c.t.nodes[i], q);
      }
    }
    HoldsSame(c, d, i, env, item.on);
  }

  /** The nodes differ in LIMIT at most. */
  predicate SameButLimit(n: Node, m: Node) {
    WithLimit(n, None) == WithLimit(m, None)
  }

  lemma ShapedSame(c: Ctx, d: Ctx, i: nat, env: Env)
    requires SameShape(c, d) && i < |c.t.nodes| && SameNested(c, d, i, c.t.nodes[i])
    requires SameButLimit(c.t.nodes[i], d.t.nodes[i]) && (c.t.nodes[i].Select? ==> AgreeOnTables(c.db, d.db, c.t.nodes[i].from))
    ensures Shaped(c, i, env) == Shaped(d, i, env)
  {
    if c.t.nodes[i].Select? {
      FramesSame(c, d, i, env, |c.t.nodes[i].from|);
      BlankSame(c, d, i, env, |c.t.nodes[i].from|);
      HoldsSame(c, d, i, env, c.t.nodes[i].filter);
      FilterCongruence(f => Holds(c, i, env, c.t.nodes[i].filter, f), f => Holds(d, i, env, c.t.nodes[i].filter, f),
                       Frames(c, i, env, |c.t.nodes[i].from|));
      ShownSame(c, d, i, env, Kept(c, i, env));
    } else {
      UnionShaped(c, d, i, env);
    }
  }

  /** A query depends only on the nodes from its own on. */
  lemma {:induction false} LaterNodesSame(c: Ctx, d: Ctx, i: nat, env: Env)
    requires SameShape(c, d) && c.db == d.db && i < |c.t.nodes| && c.t.nodes[i..] == d.t.nodes[i..]
    ensures EvalNode(c, i, env) == EvalNode(d, i, env)
    decreases |c.t.nodes| - i
  {
    forall k, e: Env | i < k < |c.t.nodes| ensures EvalNode(c, k, e) == EvalNode(d, k, e) {
      assert c.t.nodes[k..] == c.t.nodes[i..][k - i..] && d.t.nodes[k..] == d.t.nodes[i..][k - i..];
      LaterNodesSame(c, d, k, e);
    }
    assert c.t.nodes[i] == c.t.nodes[i..][0] && d.t.nodes[i] == d.t.nodes[i..][0];
    BelowIsNested(c, d, i);
    ShapedSame(c, d, i, env);
  }
}
