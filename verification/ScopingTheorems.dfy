/** The main results about row scoping. */
module ScopingTheorems {
  import opened Wrappers
  import opened Relational
  import opened Sql
  import opened SqlFacts
  import opened Profiles
  import opened Injector
  import opened Scoping

  // ---- Frames whose scoped tables show visible rows only ----

  predicate Guarded(s: Scope, item: FromItem) {
    item.source.Base? && s.Scoped(item.source.name)
  }

  ghost predicate BindOk(w: World, s: Scope, item: FromItem, b: Bind) {
    Guarded(s, item) ==> Passes(w, s, item.source.name, c => BindCell(b, c))
  }

  /** The last of the first `k` binds first. */
  ghost predicate FrameOk(w: World, s: Scope, from: seq<FromItem>, k: nat, f: Frame)
    requires k <= |from|
  {
    k == 0 || (&& (Guarded(s, from[k - 1]) ==> f != [] && BindOk(w, s, from[k - 1], f[|f| - 1]))
               && FrameOk(w, s, from, k - 1, if f == [] then [] else f[..|f| - 1]))
  }

  lemma FrameOkSplits(w: World, s: Scope, from: seq<FromItem>, k: nat)
    requires 0 < k <= |from|
    ensures Splits(f => FrameOk(w, s, from, k, f), f => FrameOk(w, s, from, k - 1, f), b => BindOk(w, s, from[k - 1], b))
  {
    forall l: Frame, b: Bind
      ensures FrameOk(w, s, from, k, l + [b]) == (FrameOk(w, s, from, k - 1, l) && BindOk(w, s, from[k - 1], b))
    {
      assert (l + [b])[..|l + [b]| - 1] == l;
    }
  }

  lemma {:induction false} FrameOkAt(w: World, s: Scope, from: seq<FromItem>, k: nat, f: Frame)
    requires k <= |from| && |f| == k
    ensures FrameOk(w, s, from, k, f) <==> forall j :: 0 <= j < k ==> BindOk(w, s, from[j], f[j])
  {
    if k > 0 {
      FrameOkAt(w, s, from, k - 1, f[..k - 1]);
    }
  }

  /** A null-extended scoped table is never visible. */
  lemma NullBindNotOk(w: World, s: Scope, item: FromItem, b: Bind)
    requires Configured(s) && b.row.None?
    ensures BindOk(w, s, item, b) <==> !Guarded(s, item)
  {
  }

  lemma {:induction false} BlankOk(c: Ctx, s: Scope, i: nat, env: Env, k: nat)
    requires Configured(s) && c.IsSelect(i) && k <= |c.t.nodes[i].from|
    ensures FrameOk(c.w, s, c.t.nodes[i].from, k, Blank(c, i, env, k)) ==>
      forall f :: FrameOk(c.w, s, c.t.nodes[i].from, k, f)
  {
    if k > 0 {
      var from := c.t.nodes[i].from;
      BlankOk(c, s, i, env, k - 1);
      var b := Blank(c, i, env, k);
      assert b[..|b| - 1] == Blank(c, i, env, k - 1);
      NullBindNotOk(c.w, s, from[k - 1], b[|b| - 1]);
    }
  }

  // ---- The result of a scoped statement does not depend on rows the user may not see ----

  /** Filtering the binds of a scoped table leaves the binds of its visible rows. */
  lemma {:induction false} FilterBinds(w: World, s: Scope, item: FromItem, alias: string, r: Relation)
    requires Guarded(s, item)
    ensures Filter(b => BindOk(w, s, item, b), Binds(alias, r)) == Binds(alias, VisibleRows(w, s, item.source.name, r))
    decreases |r.rows|
  {
    var ok := b => BindOk(w, s, item, b);
    var see := row => Visible(w, s, item.source.name, r.cols, row);
    if r.rows != [] {
      var rest := Relation(r.cols, r.rows[1..]);
      FilterBinds(w, s, item, alias, rest);
      assert Binds(alias, r)[1..] == Binds(alias, rest);
      FilterStep(ok, Binds(alias, r));
      FilterStep(see, r.rows);
      VisibleIsOk(w, s, item, alias, r.cols, r.rows[0]);
      assert Binds(alias, r)[0] == Bind(alias, r.cols, Some(r.rows[0]));
    }
  }

  lemma VisibleIsOk(w: World, s: Scope, item: FromItem, alias: string, cols: seq<string>, row: Row)
    requires Guarded(s, item)
    ensures BindOk(w, s, item, Bind(alias, cols, Some(row))) <==> Visible(w, s, item.source.name, cols, row)
  {
  }

  /** Two databases that look the same to the user. */
  ghost predicate LooksSame(w: World, s: Scope, db: Database, db': Database) {
    VisibleDatabase(w, s, db) == VisibleDatabase(w, s, db')
  }

  lemma SourceLooksSame(c: Ctx, d: Ctx, s: Scope, i: nat, env: Env, item: FromItem)
    requires SameShape(c, d) && i < |c.t.nodes| && SameBelow(c, d, i) && LooksSame(c.w, s, c.db, d.db)
    requires item.source.Base? ==> item.source.schema == ""
    ensures var alias, r, r' := item.source.AliasOrName(), SourceRelation(c, i, env, item.source), SourceRelation(d, i, env, item.source);
      r.cols == r'.cols && Filter(b => BindOk(c.w, s, item, b), Binds(alias, r)) == Filter(b => BindOk(c.w, s, item, b), Binds(alias, r'))
  {
    var alias, r, r' := item.source.AliasOrName(), SourceRelation(c, i, env, item.source), SourceRelation(d, i, env, item.source);
    if item.source.Base? {
      var name := item.source.name;
      assert name in c.db <==> name in VisibleDatabase(c.w, s, c.db);
      assert name in d.db <==> name in VisibleDatabase(c.w, s, d.db);
      if name in c.db {
        assert VisibleDatabase(c.w, s, c.db)[name] == VisibleDatabase(c.w, s, d.db)[name];
      }
      if s.Scoped(name) {
        FilterBinds(c.w, s, item, alias, r);
        FilterBinds(c.w, s, item, alias, r');
      }
    } else {
      assert EvalSub(c, i, item.source.query, env) == EvalSub(d, i, item.source.query, env);
    }
  }

  lemma {:induction false} BlankLooksSame(c: Ctx, d: Ctx, s: Scope, i: nat, env: Env, k: nat)
    requires SameShape(c, d) && SameButFilter(c, d, i) && SameBelow(c, d, i) && LooksSame(c.w, s, c.db, d.db)
    requires Unqualified(c.t) && k <= |c.t.nodes[i].from|
    ensures Blank(c, i, env, k) == Blank(d, i, env, k)
  {
    if k > 0 {
      BlankLooksSame(c, d, s, i, env, k - 1);
      SourceLooksSame(c, d, s, i, env, c.t.nodes[i].from[k - 1]);
    }
  }

  /** The frames with visible rows are the same in both contexts. */
  lemma {:induction false} FramesLookSame(c: Ctx, d: Ctx, s: Scope, i: nat, env: Env, k: nat)
    requires Configured(s) && SameShape(c, d) && SameButFilter(c, d, i) && SameBelow(c, d, i) && LooksSame(c.w, s, c.db, d.db)
    requires Unqualified(c.t) && k <= |c.t.nodes[i].from|
    ensures Filter(f => FrameOk(c.w, s, c.t.nodes[i].from, k, f), Frames(c, i, env, k))
         == Filter(f => FrameOk(c.w, s, c.t.nodes[i].from, k, f), Frames(d, i, env, k))
  {
    if k > 0 {
      var from := c.t.nodes[i].from;
      var item := from[k - 1];
      FramesLookSame(c, d, s, i, env, k - 1);
      SourceLooksSame(c, d, s, i, env, item);
      BlankLooksSame(c, d, s, i, env, k - 1);
      HoldsBelow(c, d, i, env, item.on);
      FrameOkSplits(c.w, s, from, k);
      BlankOk(c, s, i, env, k - 1);
      var alias, r, r' := item.source.AliasOrName(), SourceRelation(c, i, env, item.source), SourceRelation(d, i, env, item.source);
      NullBindNotOk(c.w, s, item, NullBind(alias, r));
      FilteredJoin(item.kind, f => Holds(c, i, env, item.on, f), f => Holds(d, i, env, item.on, f),
                   Frames(c, i, env, k - 1), Frames(d, i, env, k - 1), Binds(alias, r), Binds(alias, r'),
                   NullBind(alias, r), Blank(c, i, env, k - 1),
                   f => FrameOk(c.w, s, from, k, f), f => FrameOk(c.w, s, from, k - 1, f), b => BindOk(c.w, s, item, b));
    }
  }

  // ---- What the rewritten WHERE keeps ----

  /** One bind per FROM item, under its alias. */
  ghost predicate Fits(from: seq<FromItem>, k: nat, f: Frame)
    requires k <= |from|
  {
    |f| == k && forall j :: 0 <= j < k ==> f[j].alias == from[j].source.AliasOrName()
  }

  lemma {:induction false} FramesFit(c: Ctx, i: nat, env: Env, k: nat)
    requires c.IsSelect(i) && k <= |c.t.nodes[i].from|
    ensures forall f :: f in Frames(c, i, env, k) ==> Fits(c.t.nodes[i].from, k, f)
    ensures Fits(c.t.nodes[i].from, k, Blank(c, i, env, k))
  {
    if k > 0 {
      FramesFit(c, i, env, k - 1);
      var item := c.t.nodes[i].from[k - 1];
      var r := SourceRelation(c, i, env, item.source);
      JoinFits(c.t.nodes[i].from, k, f => Holds(c, i, env, item.on, f), Frames(c, i, env, k - 1), r, Blank(c, i, env, k - 1));
    }
  }

  lemma JoinFits(from: seq<FromItem>, k: nat, on: Frame -> bool, ls: seq<Frame>, r: Relation, blank: Frame)
    requires 0 < k <= |from| && Fits(from, k - 1, blank) && forall l :: l in ls ==> Fits(from, k - 1, l)
    ensures var alias := from[k - 1].source.AliasOrName();
      && Fits(from, k, blank + [NullBind(alias, r)])
      && forall f :: f in Join(from[k - 1].kind, on, ls, Binds(alias, r), NullBind(alias, r), blank) ==> Fits(from, k, f)
  {
    var alias := from[k - 1].source.AliasOrName();
    var bs, nul := Binds(alias, r), NullBind(alias, r);
    var fits := (f: Frame) => Fits(from, k, f);
    forall l, b: Bind | l in ls && b.alias == alias ensures fits(l + [b]) {
    }
    BindsAlias(alias, r);
    forall b: Bind | b.alias == alias ensures fits(blank + [b]) {
    }
    LeftMajorAll(on, ls, bs, nul, fits);
    RightMajorAll(on, ls, bs, blank, fits);
  }

  lemma BindsAlias(alias: string, r: Relation)
    ensures forall b :: b in Binds(alias, r) ==> b.alias == alias
  {
  }

  lemma {:induction false} QualifiedAt(f: Frame, env: Env, j: nat, name: string)
    requires j < |f| && forall a :: 0 <= a < j ==> f[a].alias != f[j].alias
    ensures Qualified(f + env, f[j].alias, name) == BindCell(f[j], name)
  {
    assert (f + env)[1..] == f[1..] + env;
    if j > 0 {
      QualifiedAt(f[1..], env, j - 1, name);
    }
  }

  /** Scoping one table adds the visibility of its bind to WHERE. */
  lemma GuardedMeaning(c: Ctx, s: Scope, i: nat, env: Env, filter: Option<Expr>, from: seq<FromItem>, j: nat, f: Frame)
    requires Configured(s) && i < |c.t.nodes| && j < |from| && Guarded(s, from[j])
    requires DistinctAliases(from) && Fits(from, |from|, f)
    requires ScopeTable(s, filter, from[j].source).Ok?
    ensures Holds(c, i, env, ScopeTable(s, filter, from[j].source).value, f)
       <==> Holds(c, i, env, filter, f) && BindOk(c.w, s, from[j], f[j])
  {
    var p := PredicateMeaning(c, i, f + env, s, filter, from[j].source);
    forall name ensures Qualified(f + env, from[j].source.AliasOrName(), name) == BindCell(f[j], name) {
      QualifiedAt(f, env, j, name);
    }
  }

  /** The WHERE with the predicates of the first `k` FROM items adds exactly the visibility of those items. */
  lemma {:induction false} FilterMeaning(c: Ctx, s: Scope, i: nat, env: Env, filter: Option<Expr>,
                                         from: seq<FromItem>, k: nat, f: Frame)
    requires Configured(s) && i < |c.t.nodes| && k <= |from|
    requires DistinctAliases(from) && Fits(from, |from|, f)
    requires ScopeFrom(s, filter, from, k).Ok?
    ensures Holds(c, i, env, ScopeFrom(s, filter, from, k).value, f)
       <==> Holds(c, i, env, filter, f) && forall j :: 0 <= j < k ==> BindOk(c.w, s, from[j], f[j])
  {
    if k > 0 {
      FilterMeaning(c, s, i, env, filter, from, k - 1, f);
      if Guarded(s, from[k - 1]) {
        GuardedMeaning(c, s, i, env, ScopeFrom(s, filter, from, k - 1).value, from, k - 1, f);
      }
    }
  }

  /** A scoped SELECT keeps the frames its own WHERE keeps among those that show visible rows only. */
  lemma ScopedKept(c: Ctx, s: Scope, i: nat, env: Env, n: Node)
    requires Configured(s) && c.IsSelect(i) && ScopeNode(s, n) == Ok(c.t.nodes[i]) && DistinctAliases(n.from)
    ensures Kept(c, i, env) == Filter(f => Holds(c, i, env, n.filter, f),
                                      Filter(f => FrameOk(c.w, s, n.from, |n.from|, f), Frames(c, i, env, |n.from|)))
  {
    FramesFit(c, i, env, |n.from|);
    var frames := Frames(c, i, env, |n.from|);
    var both := (f: Frame) => Holds(c, i, env, c.t.nodes[i].filter, f);
    forall f | f in frames
      ensures both(f) == (FrameOk(c.w, s, n.from, |n.from|, f) && Holds(c, i, env, n.filter, f))
    {
      FilterMeaning(c, s, i, env, n.filter, n.from, |n.from|, f);
      FrameOkAt(c.w, s, n.from, |n.from|, f);
    }
    FilterTwice(f => FrameOk(c.w, s, n.from, |n.from|, f), f => Holds(c, i, env, n.filter, f), both, frames);
  }

  // ---- Statements ----

  /** `t'` is `t` with every SELECT scoped. */
  ghost predicate IsScoped(s: Scope, t: Tree, t': Tree) {
    && Configured(s) && Accepted(t) && Unqualified(t)
    && |t'.nodes| == |t.nodes| && t' == t.(nodes := t'.nodes)
    && forall i :: 0 <= i < |t.nodes| ==> ScopeNode(s, t.nodes[i]) == Ok(t'.nodes[i])
  }

  lemma ScopedNode(s: Scope, t: Tree, t': Tree, i: nat)
    requires IsScoped(s, t, t') && i < |t.nodes|
    ensures t.nodes[i].Select? <==> t'.nodes[i].Select?
    ensures t.nodes[i].Select? ==> t'.nodes[i] == t.nodes[i].(filter := t'.nodes[i].filter) && DistinctAliases(t.nodes[i].from)
    ensures !t.nodes[i].Select? ==> t'.nodes[i] == t.nodes[i]
    ensures Unqualified(t')
  {
    forall k | 0 <= k < |t.nodes| ensures t.nodes[k].Select? ==> t'.nodes[k] == t.nodes[k].(filter := t'.nodes[k].filter) {
      assert ScopeNode(s, t.nodes[k]) == Ok(t'.nodes[k]);
    }
    forall k | 0 <= k < |t.nodes| ensures t'.nodes[k].Select? ==> t.nodes[k].Select? {
      assert ScopeNode(s, t.nodes[k]) == Ok(t'.nodes[k]);
    }
  }

  /** What a scoped SELECT keeps, seen from a second context: the visible ones of the frames its own WHERE keeps there. */
  lemma ScopedKeptElsewhere(c: Ctx, d: Ctx, s: Scope, t: Tree, i: nat, env: Env)
    requires IsScoped(s, t, c.t) && SameShape(c, d) && i < |c.t.nodes| && t.nodes[i].Select? && SameBelow(c, d, i)
    requires d.t.nodes[i] == t.nodes[i] || d.t.nodes[i] == c.t.nodes[i]
    requires LooksSame(c.w, s, c.db, d.db)
    ensures c.IsSelect(i) && SameButFilter(c, d, i)
    ensures Kept(c, i, env) == Filter(f => Holds(d, i, env, t.nodes[i].filter, f),
                                      Filter(f => FrameOk(c.w, s, t.nodes[i].from, |t.nodes[i].from|, f),
                                             Frames(d, i, env, |t.nodes[i].from|)))
    ensures OutputCols(c, i, env) == OutputCols(d, i, env)
  {
    ScopedNode(s, t, c.t, i);
    var n := t.nodes[i];
    ScopedKept(c, s, i, env, n);
    FramesLookSame(c, d, s, i, env, |n.from|);
    BlankLooksSame(c, d, s, i, env, |n.from|);
    HoldsBelow(c, d, i, env, n.filter);
    var frames := Filter(f => FrameOk(c.w, s, n.from, |n.from|, f), Frames(d, i, env, |n.from|));
    FilterCongruence(f => Holds(c, i, env, n.filter, f), f => Holds(d, i, env, n.filter, f), frames);
  }

  /** A scoped query gives the same result on databases that look the same to the user, whatever its joins. */
  lemma {:induction false} NodeIndependent(c: Ctx, d: Ctx, s: Scope, t: Tree, i: nat, env: Env)
    requires IsScoped(s, t, c.t) && d.t == c.t && d.w == c.w && i < |t.nodes| && LooksSame(c.w, s, c.db, d.db)
    ensures EvalNode(c, i, env) == EvalNode(d, i, env)
    decreases |t.nodes| - i
  {
    forall k, e: Env | i < k < |t.nodes| ensures EvalNode(c, k, e) == EvalNode(d, k, e) {
      NodeIndependent(c, d, s, t, k, e);
    }
    ScopedNode(s, t, c.t, i);
    if t.nodes[i].Select? {
      ScopedKeptElsewhere(c, d, s, t, i, env);
      ScopedKept(d, s, i, env, t.nodes[i]);
      SelectSame(c, d, i, env);
    } else {
      UnionSame(c, d, i, env);
    }
  }

  /** No join can stand a scoped table for "no match": no scoped table is left-joined, none comes before a right join. */
  predicate NoScopedNull(s: Scope, from: seq<FromItem>) {
    forall k :: 0 <= k < |from| ==>
      && (from[k].kind.Left? ==> !Guarded(s, from[k]))
      && (from[k].kind.Right? ==> NoneGuarded(s, from, k))
  }

  predicate NoneGuarded(s: Scope, from: seq<FromItem>, k: nat)
    requires k <= |from|
  {
    forall j :: 0 <= j < k ==> !Guarded(s, from[j])
  }

  predicate NullSafeFrom(s: Scope, t: Tree, n: nat) {
    forall i :: n <= i < |t.nodes| && t.nodes[i].Select? ==> NoScopedNull(s, t.nodes[i].from)
  }

  predicate NullSafe(s: Scope, t: Tree) {
    NullSafeFrom(s, t, 0)
  }

  /** Every row of every scoped table is visible. */
  ghost predicate AllVisible(w: World, s: Scope, db: Database) {
    forall name, row :: name in db && s.Scoped(name) && row in db[name].rows ==> Visible(w, s, name, db[name].cols, row)
  }

  lemma VisibleDatabaseAllVisible(w: World, s: Scope, db: Database)
    ensures AllVisible(w, s, VisibleDatabase(w, s, db))
    ensures LooksSame(w, s, db, VisibleDatabase(w, s, db))
  {
    var v := VisibleDatabase(w, s, db);
    forall name | name in db && s.Scoped(name) ensures VisibleRows(w, s, name, v[name]) == v[name] {
      var see := row => Visible(w, s, name, db[name].cols, row);
      FilterMembers(see, db[name].rows);
      FilterAll(see, v[name].rows);
    }
    forall name, row | name in v && s.Scoped(name) && row in v[name].rows ensures Visible(w, s, name, v[name].cols, row) {
      FilterMembers(r => Visible(w, s, name, db[name].cols, r), db[name].rows);
    }
    assert VisibleDatabase(w, s, v) == v;
  }

  lemma SourceOk(d: Ctx, s: Scope, i: nat, env: Env, item: FromItem)
    requires AllVisible(d.w, s, d.db) && i < |d.t.nodes| && (item.source.Base? ==> item.source.schema == "")
    ensures forall b :: b in Binds(item.source.AliasOrName(), SourceRelation(d, i, env, item.source)) ==> BindOk(d.w, s, item, b)
  {
    var alias, r := item.source.AliasOrName(), SourceRelation(d, i, env, item.source);
    if Guarded(s, item) {
      forall b | b in Binds(alias, r) ensures BindOk(d.w, s, item, b) {
        var j :| 0 <= j < |r.rows| && Binds(alias, r)[j] == b;
        assert r.rows[j] in r.rows;
        VisibleIsOk(d.w, s, item, alias, r.cols, r.rows[j]);
      }
    }
  }

  lemma {:induction false} FrameOkFree(w: World, s: Scope, from: seq<FromItem>, k: nat, f: Frame)
    requires k <= |from| && NoneGuarded(s, from, k)
    ensures FrameOk(w, s, from, k, f)
  {
    if k > 0 {
      FrameOkFree(w, s, from, k - 1, if f == [] then [] else f[..|f| - 1]);
    }
  }

  lemma FrameOkAppend(w: World, s: Scope, from: seq<FromItem>, k: nat, l: Frame, b: Bind)
    requires 0 < k <= |from|
    ensures FrameOk(w, s, from, k, l + [b]) <==> FrameOk(w, s, from, k - 1, l) && BindOk(w, s, from[k - 1], b)
  {
    assert (l + [b])[..|l + [b]| - 1] == l;
  }

  lemma NullSafeJoinOk(w: World, s: Scope, from: seq<FromItem>, k: nat, on: Frame -> bool, ls: seq<Frame>, bs: seq<Bind>,
                       nul: Bind, blank: Frame)
    requires 0 < k <= |from| && NoScopedNull(s, from)
    requires forall l :: l in ls ==> FrameOk(w, s, from, k - 1, l)
    requires forall b :: b in bs ==> BindOk(w, s, from[k - 1], b)
    ensures forall f :: f in Join(from[k - 1].kind, on, ls, bs, nul, blank) ==> FrameOk(w, s, from, k, f)
  {
    var ok := (f: Frame) => FrameOk(w, s, from, k, f);
    forall l, b | l in ls && b in bs ensures ok(l + [b]) {
      FrameOkAppend(w, s, from, k, l, b);
    }
    if from[k - 1].kind.Left? {
      forall l | l in ls ensures ok(l + [nul]) {
        FrameOkAppend(w, s, from, k, l, nul);
      }
    } else if from[k - 1].kind.Right? {
      FrameOkFree(w, s, from, k - 1, blank);
      forall b | b in bs ensures ok(blank + [b]) {
        FrameOkAppend(w, s, from, k, blank, b);
      }
    }
    JoinAll(from[k - 1].kind, on, ls, bs, nul, blank, ok);
  }

  /** Where no scoped table can be null-extended, frames over visible rows show visible rows. */
  lemma {:induction false} NullSafeFramesOk(d: Ctx, s: Scope, i: nat, env: Env, k: nat)
    requires AllVisible(d.w, s, d.db) && d.IsSelect(i) && k <= |d.t.nodes[i].from| && Unqualified(d.t) && NullSafeFrom(s, d.t, i)
    ensures forall f :: f in Frames(d, i, env, k) ==> FrameOk(d.w, s, d.t.nodes[i].from, k, f)
  {
    if k > 0 {
      var from := d.t.nodes[i].from;
      var item := from[k - 1];
      NullSafeFramesOk(d, s, i, env, k - 1);
      SourceOk(d, s, i, env, item);
      var alias, r := item.source.AliasOrName(), SourceRelation(d, i, env, item.source);
      NullSafeJoinOk(d.w, s, from, k, f => Holds(d, i, env, item.on, f), Frames(d, i, env, k - 1), Binds(alias, r),
                     NullBind(alias, r), Blank(d, i, env, k - 1));
    }
  }

  /** A scoped query in which no scoped table can be null-extended is the original query on the visible part of the database. */
  lemma {:induction false} NodeFiltered(c: Ctx, d: Ctx, s: Scope, t: Tree, i: nat, env: Env)
    requires IsScoped(s, t, c.t) && NullSafeFrom(s, t, i) && i < |t.nodes|
    requires d.t == t && d.w == c.w && LooksSame(c.w, s, c.db, d.db) && AllVisible(c.w, s, d.db)
    ensures EvalNode(c, i, env) == EvalNode(d, i, env)
    decreases |t.nodes| - i
  {
    forall k, e: Env | i < k < |t.nodes| ensures EvalNode(c, k, e) == EvalNode(d, k, e) {
      NodeFiltered(c, d, s, t, k, e);
    }
    ScopedNode(s, t, c.t, i);
    if t.nodes[i].Select? {
      var n := t.nodes[i];
      ScopedKeptElsewhere(c, d, s, t, i, env);
      NullSafeFramesOk(d, s, i, env, |n.from|);
      FilterAll(f => FrameOk(c.w, s, n.from, |n.from|, f), Frames(d, i, env, |n.from|));
      SelectSame(c, d, i, env);
    } else {
      UnionSame(c, d, i, env);
    }
  }

  // ---- CTEs and whole statements ----

  /** No CTE takes the name of a table that is scoped. */
  predicate NoShadowing(s: Scope, t: Tree) {
    forall k :: 0 <= k < |t.ctes| ==> !s.Scoped(t.ctes[k].name)
  }

  lemma {:induction false} CtesLookSame(w: World, s: Scope, t: Tree, t': Tree, db: Database, db': Database, k: nat)
    requires IsScoped(s, t, t') && LooksSame(w, s, db, db') && k <= |t.ctes|
    ensures LooksSame(w, s, WithCtes(w, t', db, k), WithCtes(w, t', db', k))
  {
    if k > 0 {
      CtesLookSame(w, s, t, t', db, db', k - 1);
      var b, b' := WithCtes(w, t', db, k - 1), WithCtes(w, t', db', k - 1);
      var q := t.ctes[k - 1].query;
      if q < |t.nodes| {
        NodeIndependent(Ctx(w, t', b), Ctx(w, t', b'), s, t, q, []);
      }
      AddLooksSame(w, s, b, b', t.ctes[k - 1].name, if q < |t.nodes| then EvalNode(Ctx(w, t', b), q, []) else NoRows);
    }
  }

  /** The same CTE added to databases that look the same, whatever its name. */
  lemma AddLooksSame(w: World, s: Scope, db: Database, db': Database, name: string, r: Relation)
    requires LooksSame(w, s, db, db')
    ensures LooksSame(w, s, db[name := r], db'[name := r])
  {
    ExtendVisible(w, s, db, name, r);
    ExtendVisible(w, s, db', name, r);
  }

  /** Every CTE is a query numbered `n` or more. */
  predicate CtesFrom(t: Tree, n: nat) {
    forall k :: 0 <= k < |t.ctes| ==> t.ctes[k].query >= n
  }

  lemma {:induction false} CtesFiltered(w: World, s: Scope, t: Tree, t': Tree, db: Database, db': Database, n: nat, k: nat)
    requires IsScoped(s, t, t') && NoShadowing(s, t) && NullSafeFrom(s, t, n) && CtesFrom(t, n) && k <= |t.ctes|
    requires LooksSame(w, s, db, db') && AllVisible(w, s, db')
    ensures LooksSame(w, s, WithCtes(w, t', db, k), WithCtes(w, t, db', k)) && AllVisible(w, s, WithCtes(w, t, db', k))
  {
    if k > 0 {
      CtesFiltered(w, s, t, t', db, db', n, k - 1);
      var b, b' := WithCtes(w, t', db, k - 1), WithCtes(w, t, db', k - 1);
      var q := t.ctes[k - 1].query;
      if q < |t.nodes| {
        NodeFiltered(Ctx(w, t', b), Ctx(w, t, b'), s, t, q, []);
      }
      AddLooksSame(w, s, b, b', t.ctes[k - 1].name, if q < |t.nodes| then EvalNode(Ctx(w, t', b), q, []) else NoRows);
    }
  }

  function ScopeOf(cat: Catalog, p: Profile, subtree: HierMap): Scope {
    Scope(cat, p, EffectiveHierMap(p, subtree))
  }

  lemma ScopeTreeIsScoped(cat: Catalog, p: Profile, subtree: HierMap, t: Tree)
    requires !p.IsUnrestricted() && ScopeTree(cat, p, subtree, t).Ok? && Accepted(t) && Unqualified(t)
    ensures IsScoped(ScopeOf(cat, p, subtree), t, ScopeTree(cat, p, subtree, t).value)
  {
    ScopeNodesEach(ScopeOf(cat, p, subtree), t.nodes, |t.nodes|);
  }

  lemma RejectedAlike(cat: Catalog, p: Profile, subtree: HierMap, t: Tree)
    requires ScopeTree(cat, p, subtree, t).Ok?
    ensures Accepted(ScopeTree(cat, p, subtree, t).value) <==> Accepted(t)
  {
    if !p.IsUnrestricted() {
      var s, t' := ScopeOf(cat, p, subtree), ScopeTree(cat, p, subtree, t).value;
      ScopeNodesEach(s, t.nodes, |t.nodes|);
      forall i | 0 <= i < |t.nodes|
        ensures t'.nodes[i].Select? == t.nodes[i].Select? && (t.nodes[i].Select? ==> t'.nodes[i].from == t.nodes[i].from)
      {
        assert ScopeNode(s, t.nodes[i]) == Ok(t'.nodes[i]);
      }
    }
  }

  /** Noninterference: what a restricted user gets back is the same on any two databases that differ only in rows the user
      may not see, whatever joins, subqueries, unions, CTEs (of any name), groupings or limits the statement has. */
  lemma ScopedResultIndependent(w: World, cat: Catalog, p: Profile, subtree: HierMap, t: Tree, db: Database, db': Database)
    requires !p.IsUnrestricted() && ScopeTree(cat, p, subtree, t).Ok?
    requires Unqualified(t)
    requires LooksSame(w, ScopeOf(cat, p, subtree), db, db')
    ensures Run(w, ScopeTree(cat, p, subtree, t).value, db) == Run(w, ScopeTree(cat, p, subtree, t).value, db')
  {
    RejectedAlike(cat, p, subtree, t);
    if Accepted(t) {
      ScopeTreeIsScoped(cat, p, subtree, t);
      var s, t' := ScopeOf(cat, p, subtree), ScopeTree(cat, p, subtree, t).value;
      CtesLookSame(w, s, t, t', db, db', |t.ctes|);
      NodeIndependent(Ctx(w, t', WithCtes(w, t', db, |t.ctes|)), Ctx(w, t', WithCtes(w, t', db', |t.ctes|)), s, t, 0, []);
    }
  }

  /** Scoping is filtering: if no join can null-extend a scoped table, running the scoped statement is running the original on the
      database restricted to the rows the user may see. */
  lemma ScopingIsFiltering(w: World, cat: Catalog, p: Profile, subtree: HierMap, t: Tree, db: Database)
    requires !p.IsUnrestricted() && ScopeTree(cat, p, subtree, t).Ok?
    requires Unqualified(t) && NoShadowing(ScopeOf(cat, p, subtree), t) && NullSafe(ScopeOf(cat, p, subtree), t)
    ensures Run(w, ScopeTree(cat, p, subtree, t).value, db) == Run(w, t, VisibleDatabase(w, ScopeOf(cat, p, subtree), db))
  {
    RejectedAlike(cat, p, subtree, t);
    if Accepted(t) {
      ScopeTreeIsScoped(cat, p, subtree, t);
      var s, t' := ScopeOf(cat, p, subtree), ScopeTree(cat, p, subtree, t).value;
      var v := VisibleDatabase(w, s, db);
      VisibleDatabaseAllVisible(w, s, db);
      CtesFiltered(w, s, t, t', db, v, 0, |t.ctes|);
      NodeFiltered(Ctx(w, t', WithCtes(w, t', db, |t.ctes|)), Ctx(w, t, WithCtes(w, t, v, |t.ctes|)), s, t, 0, []);
    }
  }

  // ---- CTEs that take the name of a scoped table ----

  /** The database as CTEs extend it when a CTE that takes the name of a scoped table shows only its visible rows. */
  ghost function WithVisibleCtes(w: World, s: Scope, t: Tree, db: Database, k: nat): Database
    requires k <= |t.ctes|
  {
    if k == 0 then db else
      var before, name, q := WithVisibleCtes(w, s, t, db, k - 1), t.ctes[k - 1].name, t.ctes[k - 1].query;
      var r := if q < |t.nodes| then EvalNode(Ctx(w, t, before), q, []) else NoRows;
      before[name := if s.Scoped(name) then VisibleRows(w, s, name, r) else r]
  }

  /** Adding a relation on one side and what is visible of it on the other. */
  lemma AddVisible(w: World, s: Scope, db: Database, db': Database, name: string, r: Relation)
    requires LooksSame(w, s, db, db') && AllVisible(w, s, db')
    ensures var shown := if s.Scoped(name) then VisibleRows(w, s, name, r) else r;
      LooksSame(w, s, db[name := r], db'[name := shown]) && AllVisible(w, s, db'[name := shown])
  {
    var shown := if s.Scoped(name) then VisibleRows(w, s, name, r) else r;
    VisibleTwice(w, s, name, r);
    ExtendVisible(w, s, db, name, r);
    ExtendVisible(w, s, db', name, shown);
    var more := db'[name := shown];
    forall n, row | n in more && s.Scoped(n) && row in more[n].rows ensures Visible(w, s, n, more[n].cols, row) {
      if n != name {
        assert row in db'[n].rows;
      }
    }
  }

  lemma VisibleTwice(w: World, s: Scope, name: string, r: Relation)
    ensures VisibleRows(w, s, name, VisibleRows(w, s, name, r)) == VisibleRows(w, s, name, r)
    ensures forall row :: row in VisibleRows(w, s, name, r).rows ==> Visible(w, s, name, r.cols, row)
  {
    var see := row => Visible(w, s, name, r.cols, row);
    FilterMembers(see, r.rows);
    FilterAll(see, Filter(see, r.rows));
  }

  lemma ExtendVisible(w: World, s: Scope, db: Database, name: string, r: Relation)
    ensures VisibleDatabase(w, s, db[name := r])
         == VisibleDatabase(w, s, db)[name := if s.Scoped(name) then VisibleRows(w, s, name, r) else r]
  {
  }

  lemma {:induction false} VisibleCtesFiltered(w: World, s: Scope, t: Tree, t': Tree, db: Database, db': Database, k: nat)
    requires IsScoped(s, t, t') && NullSafe(s, t) && k <= |t.ctes| && LooksSame(w, s, db, db') && AllVisible(w, s, db')
    ensures LooksSame(w, s, WithCtes(w, t', db, k), WithVisibleCtes(w, s, t, db', k)) && AllVisible(w, s, WithVisibleCtes(w, s, t, db', k))
  {
    if k > 0 {
      VisibleCtesFiltered(w, s, t, t', db, db', k - 1);
      var b, b' := WithCtes(w, t', db, k - 1), WithVisibleCtes(w, s, t, db', k - 1);
      var q := t.ctes[k - 1].query;
      if q < |t.nodes| {
        NodeFiltered(Ctx(w, t', b), Ctx(w, t, b'), s, t, q, []);
      }
      AddVisible(w, s, b, b', t.ctes[k - 1].name, if q < |t.nodes| then EvalNode(Ctx(w, t', b), q, []) else NoRows);
    }
  }

  /** For CTEs of any name: a reference to a CTE named like a scoped table is filtered as a reference to the table would be. */
  lemma ScopingFiltersShadowingCtes(w: World, cat: Catalog, p: Profile, subtree: HierMap, t: Tree, db: Database)
    requires !p.IsUnrestricted() && ScopeTree(cat, p, subtree, t).Ok? && Accepted(t)
    requires Unqualified(t) && NullSafe(ScopeOf(cat, p, subtree), t)
    ensures var s := ScopeOf(cat, p, subtree);
      Run(w, ScopeTree(cat, p, subtree, t).value, db)
      == Some(EvalNode(Ctx(w, t, WithVisibleCtes(w, s, t, VisibleDatabase(w, s, db), |t.ctes|)), 0, []))
  {
    RejectedAlike(cat, p, subtree, t);
    ScopeTreeIsScoped(cat, p, subtree, t);
    var s, t' := ScopeOf(cat, p, subtree), ScopeTree(cat, p, subtree, t).value;
    var v := VisibleDatabase(w, s, db);
    VisibleDatabaseAllVisible(w, s, db);
    VisibleCtesFiltered(w, s, t, t', db, v, |t.ctes|);
    NodeFiltered(Ctx(w, t', WithCtes(w, t', db, |t.ctes|)), Ctx(w, t, WithVisibleCtes(w, s, t, v, |t.ctes|)), s, t, 0, []);
  }

  // ---- Outer joins ----

  /** A bind either shows a visible row or stands for "no match". */
  ghost predicate NullOrOk(w: World, s: Scope, from: seq<FromItem>, k: nat, f: Frame)
    requires k <= |from|
  {
    |f| == k && forall j :: 0 <= j < k ==> f[j].row.None? || BindOk(w, s, from[j], f[j])
  }

  lemma JoinNullOrOk(w: World, s: Scope, from: seq<FromItem>, k: nat, on: Frame -> bool, ls: seq<Frame>, bs: seq<Bind>,
                     nul: Bind, blank: Frame)
    requires 0 < k <= |from| && nul.row.None? && NullOrOk(w, s, from, k - 1, blank)
    requires forall l :: l in ls ==> NullOrOk(w, s, from, k - 1, l)
    requires forall b :: b in bs ==> BindOk(w, s, from[k - 1], b)
    ensures forall f :: f in Join(from[k - 1].kind, on, ls, bs, nul, blank) ==> NullOrOk(w, s, from, k, f)
    ensures NullOrOk(w, s, from, k, blank + [nul])
  {
    var ok := (f: Frame) => NullOrOk(w, s, from, k, f);
    LeftMajorAll(on, ls, bs, nul, ok);
    RightMajorAll(on, ls, bs, blank, ok);
  }

  lemma {:induction false} FramesNullOrOk(d: Ctx, s: Scope, i: nat, env: Env, k: nat)
    requires AllVisible(d.w, s, d.db) && d.IsSelect(i) && k <= |d.t.nodes[i].from| && Unqualified(d.t)
    ensures forall f :: f in Frames(d, i, env, k) ==> NullOrOk(d.w, s, d.t.nodes[i].from, k, f)
    ensures NullOrOk(d.w, s, d.t.nodes[i].from, k, Blank(d, i, env, k))
  {
    if k > 0 {
      var item := d.t.nodes[i].from[k - 1];
      FramesNullOrOk(d, s, i, env, k - 1);
      SourceOk(d, s, i, env, item);
      var alias, r := item.source.AliasOrName(), SourceRelation(d, i, env, item.source);
      JoinNullOrOk(d.w, s, d.t.nodes[i].from, k, f => Holds(d, i, env, item.on, f), Frames(d, i, env, k - 1),
                   Binds(alias, r), NullBind(alias, r), Blank(d, i, env, k - 1));
    }
  }

  /** No scoped table of the frame stands for "no match". */
  predicate NothingMissing(s: Scope, from: seq<FromItem>, f: Frame) {
    forall j :: 0 <= j < |f| && j < |from| && Guarded(s, from[j]) ==> f[j].row.Some?
  }

  /** With outer joins in a SELECT, scoping it is filtering it exactly when, on the visible rows, the original never keeps
      a frame in which a scoped table has no match: the injected WHERE drops those, and only those. */
  lemma OuterJoinCondition(c: Ctx, d: Ctx, s: Scope, t: Tree, i: nat, env: Env)
    requires IsScoped(s, t, c.t) && NullSafeFrom(s, t, i + 1) && i < |t.nodes| && t.nodes[i].Select?
    requires d.t == t && d.w == c.w && LooksSame(c.w, s, c.db, d.db) && AllVisible(c.w, s, d.db)
    ensures c.IsSelect(i)
    ensures forall f :: f in Kept(c, i, env) ==> f in Kept(d, i, env)
    ensures Kept(c, i, env) == Kept(d, i, env) <==>
      forall f :: f in Kept(d, i, env) ==> NothingMissing(s, t.nodes[i].from, f)
  {
    forall k, e: Env | i < k < |t.nodes| ensures EvalNode(c, k, e) == EvalNode(d, k, e) {
      NodeFiltered(c, d, s, t, k, e);
    }
    ScopedKeptElsewhere(c, d, s, t, i, env);
    var from := t.nodes[i].from;
    var frames := Frames(d, i, env, |from|);
    var ok, holds := (f: Frame) => FrameOk(c.w, s, from, |from|, f), (f: Frame) => Holds(d, i, env, t.nodes[i].filter, f);
    FilterSwap(ok, holds, frames);
    assert Kept(c, i, env) == Filter(ok, Kept(d, i, env));
    FilterMembers(ok, Kept(d, i, env));
    FilterMembers(holds, frames);
    FramesNullOrOk(d, s, i, env, |from|);
    forall f: Frame | f in Kept(d, i, env) ensures ok(f) <==> NothingMissing(s, from, f) {
      assert f in frames;
      OkWithoutMissing(c.w, s, from, f);
    }
    if forall f :: f in Kept(d, i, env) ==> ok(f) {
      FilterAll(ok, Kept(d, i, env));
    }
  }

  lemma OkWithoutMissing(w: World, s: Scope, from: seq<FromItem>, f: Frame)
    requires Configured(s) && NullOrOk(w, s, from, |from|, f)
    ensures FrameOk(w, s, from, |from|, f) <==> NothingMissing(s, from, f)
  {
    FrameOkAt(w, s, from, |from|, f);
    forall j | 0 <= j < |from| && f[j].row.None? ensures BindOk(w, s, from[j], f[j]) <==> !Guarded(s, from[j]) {
      NullBindNotOk(w, s, from[j], f[j]);
    }
  }

  /** The shape of a statement keeps one row for each row it is given. */
  ghost predicate KeepsCount(w: World, shape: nat) {
    forall rows :: |w.shape(shape, rows)| == |rows|
  }

  /** A LIMIT that leaves this many rows uncut; a missing one does. */
  predicate Uncut(w: World, limit: Option<LimitCount>, size: nat) {
    match limit
    case None => true
    case Some(Plain(n)) => size <= n
    case Some(Other(id)) => size <= w.count(id)
  }

  /** At the level of statements: for a SELECT of any joins whose grouping keeps the number of rows and whose LIMIT does not cut what
      the original keeps of the visible rows, the scoped statement returns what the original returns on the visible rows exactly when
      the original keeps no row there in which a scoped table has no match. */
  lemma OuterJoinStatement(w: World, cat: Catalog, p: Profile, subtree: HierMap, t: Tree, db: Database)
    requires !p.IsUnrestricted() && ScopeTree(cat, p, subtree, t).Ok? && Accepted(t) && Unqualified(t)
    requires NoShadowing(ScopeOf(cat, p, subtree), t) && NullSafeFrom(ScopeOf(cat, p, subtree), t, 1) && CtesFrom(t, 1)
    requires t.nodes[0].Select? && t.nodes[0].offset == 0 && KeepsCount(w, t.nodes[0].shape)
    requires var v := VisibleDatabase(w, ScopeOf(cat, p, subtree), db);
      Uncut(w, t.nodes[0].limit, |Kept(Ctx(w, t, WithCtes(w, t, v, |t.ctes|)), 0, [])|)
    ensures var s := ScopeOf(cat, p, subtree);
      var v := VisibleDatabase(w, s, db);
      Run(w, ScopeTree(cat, p, subtree, t).value, db) == Run(w, t, v) <==>
        forall f :: f in Kept(Ctx(w, t, WithCtes(w, t, v, |t.ctes|)), 0, []) ==> NothingMissing(s, t.nodes[0].from, f)
  {
    RejectedAlike(cat, p, subtree, t);
    ScopeTreeIsScoped(cat, p, subtree, t);
    var s, t' := ScopeOf(cat, p, subtree), ScopeTree(cat, p, subtree, t).value;
    var v := VisibleDatabase(w, s, db);
    VisibleDatabaseAllVisible(w, s, db);
    CtesFiltered(w, s, t, t', db, v, 1, |t.ctes|);
    var c, e := Ctx(w, t', WithCtes(w, t', db, |t.ctes|)), Ctx(w, t, WithCtes(w, t, v, |t.ctes|));
    OuterJoinCondition(c, e, s, t, 0, []);
    KeptDecidesRows(c, e, s, t);
  }

  lemma KeptDecidesRows(c: Ctx, d: Ctx, s: Scope, t: Tree)
    requires IsScoped(s, t, c.t) && NullSafeFrom(s, t, 1) && t.nodes[0].Select?
    requires d.t == t && d.w == c.w && LooksSame(c.w, s, c.db, d.db) && AllVisible(c.w, s, d.db)
    requires t.nodes[0].offset == 0 && KeepsCount(c.w, t.nodes[0].shape) && Uncut(c.w, t.nodes[0].limit, |Kept(d, 0, [])|)
    ensures c.IsSelect(0)
    ensures EvalNode(c, 0, []) == EvalNode(d, 0, []) <==> Kept(c, 0, []) == Kept(d, 0, [])
  {
    forall k, e: Env | 0 < k < |t.nodes| ensures EvalNode(c, k, e) == EvalNode(d, k, e) {
      NodeFiltered(c, d, s, t, k, e);
    }
    ScopedKeptElsewhere(c, d, s, t, 0, []);
    KeptShorter(c, d, s, t, 0, []);
    if Kept(c, 0, []) == Kept(d, 0, []) {
      SelectSame(c, d, 0, []);
    } else {
      UncutRows(c, 0);
      UncutRows(d, 0);
    }
  }

  /** Such a SELECT returns a row for each one it keeps. */
  lemma UncutRows(c: Ctx, i: nat)
    requires c.IsSelect(i) && c.t.nodes[i].offset == 0 && KeepsCount(c.w, c.t.nodes[i].shape)
    requires Uncut(c.w, c.t.nodes[i].limit, |Kept(c, i, [])|)
    ensures |EvalNode(c, i, []).rows| == |Kept(c, i, [])|
  {
    var n := c.t.nodes[i];
    var rows := Shaped(c, i, []).rows;
    assert |rows| == |Kept(c, i, [])| && Drop(0, rows) == rows;
  }

  /** What scoping drops is dropped for good. */
  lemma KeptShorter(c: Ctx, d: Ctx, s: Scope, t: Tree, i: nat, env: Env)
    requires IsScoped(s, t, c.t) && NullSafeFrom(s, t, i + 1) && i < |t.nodes| && t.nodes[i].Select?
    requires d.t == t && d.w == c.w && LooksSame(c.w, s, c.db, d.db) && AllVisible(c.w, s, d.db)
    ensures c.IsSelect(i)
    ensures |Kept(c, i, env)| <= |Kept(d, i, env)|
    ensures |Kept(c, i, env)| == |Kept(d, i, env)| ==> Kept(c, i, env) == Kept(d, i, env)
  {
    forall k, e: Env | i < k < |t.nodes| ensures EvalNode(c, k, e) == EvalNode(d, k, e) {
      NodeFiltered(c, d, s, t, k, e);
    }
    ScopedKeptElsewhere(c, d, s, t, i, env);
    var from := t.nodes[i].from;
    var ok, holds := (f: Frame) => FrameOk(c.w, s, from, |from|, f), (f: Frame) => Holds(d, i, env, t.nodes[i].filter, f);
    FilterSwap(ok, holds, Frames(d, i, env, |from|));
    FilterMembers(ok, Kept(d, i, env));
  }
}
