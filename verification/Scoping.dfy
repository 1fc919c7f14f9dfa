/** What row scoping means: running the scoped statement is running the original on the rows the user may see. */
module Scoping {
  import opened Wrappers
  import opened Relational
  import opened Sql
  import opened SortedStrings
  import opened Injector

  // ---- Visible rows ----

  /** Whether the cells of a row of table `name` pass the user's scope. */
  ghost predicate Passes(w: World, s: Scope, name: string, cell: string -> Value) {
    && (s.p.GeoAvailable() ==> exists v :: v in s.p.geoVals && Equal(w, cell(s.p.geoCol), v))
    && (s.hier != map[] ==> exists l, code :: s.Usable(TableColumns(s.cat, name), l) && code in s.hier[l]
                                              && Equal(w, cell(LevelColumn(l).value), code))
  }

  predicate Equal(w: World, v: Value, text: string) {
    Truthy(w, CompareValue(w, "=", v, Text(text)))
  }

  ghost predicate Visible(w: World, s: Scope, name: string, cols: seq<string>, row: Row) {
    Passes(w, s, name, c => Cell(cols, row, c))
  }

  ghost function VisibleRows(w: World, s: Scope, name: string, r: Relation): Relation {
    Relation(r.cols, Filter(row => Visible(w, s, name, r.cols, row), r.rows))
  }

  /** The database as the user may see it. */
  ghost function VisibleDatabase(w: World, s: Scope, db: Database): Database {
    map name | name in db :: if s.Scoped(name) then VisibleRows(w, s, name, db[name]) else db[name]
  }

  // ---- The injected predicate tests visibility ----

  lemma {:induction false} LiteralsMeaning(c: Ctx, i: nat, env: Env, values: seq<string>)
    requires i < |c.t.nodes|
    ensures var vs := EvalExprs(c, i, env, Literals(values));
            |vs| == |values| && forall k :: 0 <= k < |values| ==> vs[k] == Text(values[k])
  {
    if values != [] {
      LiteralsMeaning(c, i, env, values[1..]);
    }
  }

  lemma EqOrInMeaning(c: Ctx, i: nat, env: Env, alias: string, column: string, values: seq<string>)
    requires i < |c.t.nodes|
    ensures Truthy(c.w, EvalExpr(c, i, env, EqOrIn(alias, column, values)))
       <==> exists v :: v in values && Equal(c.w, Qualified(env, alias, column), v)
  {
    LiteralsMeaning(c, i, env, values);
    if |values| == 1 {
      assert values[0] in values;
    } else {
      var vs := EvalExprs(c, i, env, Literals(values));
      var x := Qualified(env, alias, column);
      if v :| v in values && Equal(c.w, x, v) {
        var k :| 0 <= k < |values| && values[k] == v;
        assert Truthy(c.w, CompareValue(c.w, "=", x, vs[k]));
      }
      if k :| 0 <= k < |vs| && Truthy(c.w, CompareValue(c.w, "=", x, vs[k])) {
        assert values[k] in values && Equal(c.w, x, values[k]);
      }
    }
  }

  ghost predicate AnyTrue(c: Ctx, i: nat, env: Env, parts: seq<Expr>)
    requires i < |c.t.nodes|
  {
    exists k :: 0 <= k < |parts| && Truthy(c.w, EvalExpr(c, i, env, parts[k]))
  }

  lemma AnyTrueAppend(c: Ctx, i: nat, env: Env, front: seq<Expr>, e: Expr)
    requires i < |c.t.nodes|
    ensures AnyTrue(c, i, env, front + [e]) <==> AnyTrue(c, i, env, front) || Truthy(c.w, EvalExpr(c, i, env, e))
  {
    var parts := front + [e];
    assert parts[|front|] == e;
    if AnyTrue(c, i, env, front) {
      var k :| 0 <= k < |front| && Truthy(c.w, EvalExpr(c, i, env, front[k]));
      assert parts[k] == front[k];
    }
  }

  lemma {:induction false} OrAllMeaning(c: Ctx, i: nat, env: Env, parts: seq<Expr>)
    requires i < |c.t.nodes| && parts != []
    ensures Truthy(c.w, EvalExpr(c, i, env, OrAll(parts))) <==> AnyTrue(c, i, env, parts)
  {
    var front, last := parts[..|parts| - 1], parts[|parts| - 1];
    assert parts == front + [last];
    AnyTrueAppend(c, i, env, front, last);
    if |parts| > 1 {
      OrAllMeaning(c, i, env, front);
    }
  }

  ghost predicate LevelMatches(w: World, env: Env, s: Scope, alias: string, columns: set<string>, l: int) {
    s.Usable(columns, l) && exists code :: code in s.hier[l] && Equal(w, Qualified(env, alias, LevelColumn(l).value), code)
  }

  ghost predicate AnyLevel(w: World, env: Env, s: Scope, alias: string, columns: set<string>, n: nat)
    requires n <= |LEVELS|
  {
    exists j :: 0 <= j < n && LevelMatches(w, env, s, alias, columns, LEVELS[j])
  }

  lemma AnyLevelStep(w: World, env: Env, s: Scope, alias: string, columns: set<string>, n: nat)
    requires 0 < n <= |LEVELS|
    ensures AnyLevel(w, env, s, alias, columns, n)
       <==> AnyLevel(w, env, s, alias, columns, n - 1) || LevelMatches(w, env, s, alias, columns, LEVELS[n - 1])
  {
    if LevelMatches(w, env, s, alias, columns, LEVELS[n - 1]) {
      assert 0 <= n - 1 < n && LevelMatches(w, env, s, alias, columns, LEVELS[n - 1]);
    }
  }

  lemma {:induction false} HierPartsMeaning(c: Ctx, i: nat, env: Env, s: Scope, alias: string, columns: set<string>, n: nat)
    requires i < |c.t.nodes| && n <= |LEVELS|
    ensures AnyTrue(c, i, env, s.HierParts(alias, columns, n))
       <==> AnyLevel(c.w, env, s, alias, columns, n)
  {
    if n > 0 {
      HierPartsMeaning(c, i, env, s, alias, columns, n - 1);
      AnyLevelStep(c.w, env, s, alias, columns, n);
      var before, l := s.HierParts(alias, columns, n - 1), LEVELS[n - 1];
      if s.Usable(columns, l) {
        var part := EqOrIn(alias, LevelColumn(l).value, SortedCodes(s.hier[l]));
        assert s.HierParts(alias, columns, n) == before + [part];
        EqOrInMeaning(c, i, env, alias, LevelColumn(l).value, SortedCodes(s.hier[l]));
        AnyTrueAppend(c, i, env, before, part);
      } else {
        assert s.HierParts(alias, columns, n) == before;
      }
    }
  }

  lemma UsableLevels(s: Scope, columns: set<string>, l: int)
    requires s.Usable(columns, l)
    ensures exists j :: 0 <= j < |LEVELS| && LEVELS[j] == l
  {
    assert LEVELS[0] == 100 && LEVELS[1] == 200 && LEVELS[2] == 300 && LEVELS[3] == 400 && LEVELS[4] == 500 && LEVELS[5] == 600;
  }

  /** The scope has something to enforce; otherwise `apply_scope` refuses. */
  predicate Configured(s: Scope) {
    s.p.GeoAvailable() || s.hier != map[]
  }

  /** For a table that can be scoped, the injected predicate holds of a row exactly when the row is visible. */
  lemma PredicateMeaning(c: Ctx, i: nat, env: Env, s: Scope, filter: Option<Expr>, src: Source)
    returns (p: Expr)
    requires i < |c.t.nodes| && src.Base? && Configured(s)
    requires ScopeTable(s, filter, src).Ok?
    ensures ScopeTable(s, filter, src).value == AddWhere(filter, p)
    ensures Truthy(c.w, EvalExpr(c, i, env, p)) <==> Passes(c.w, s, src.name, col => Qualified(env, src.AliasOrName(), col))
  {
    var alias, columns := src.AliasOrName(), TableColumns(s.cat, src.name);
    var cell := col => Qualified(env, alias, col);
    var geo := s.GeoPredicate(alias, columns);
    var hier := s.HierPredicate(alias, columns);
    if geo.Some? {
      EqOrInMeaning(c, i, env, alias, s.p.geoCol, s.p.geoVals);
      assert Truthy(c.w, EvalExpr(c, i, env, geo.value)) <==>
        exists v :: v in s.p.geoVals && Equal(c.w, cell(s.p.geoCol), v);
    }
    if hier.Some? {
      HierMeans(c, i, env, s, alias, columns, hier.value);
      assert s.hier != map[] by {
        NoHierParts(s, alias, columns, |LEVELS|);
      }
      assert Truthy(c.w, EvalExpr(c, i, env, hier.value)) <==>
        exists l, code :: s.Usable(columns, l) && code in s.hier[l] && Equal(c.w, cell(LevelColumn(l).value), code);
    }
    p := s.TablePredicate(src.name, alias).value;
    assert geo.Some? <==> s.p.GeoAvailable();
    assert hier.Some? <==> s.hier != map[];
  }

  lemma HierMeans(c: Ctx, i: nat, env: Env, s: Scope, alias: string, columns: set<string>, p: Expr)
    requires i < |c.t.nodes| && s.HierPredicate(alias, columns) == Some(p)
    ensures Truthy(c.w, EvalExpr(c, i, env, p)) <==>
      exists l, code :: s.Usable(columns, l) && code in s.hier[l] && Equal(c.w, Qualified(env, alias, LevelColumn(l).value), code)
  {
    var parts := s.HierParts(alias, columns, |LEVELS|);
    HierPartsMeaning(c, i, env, s, alias, columns, |LEVELS|);
    OrAllMeaning(c, i, env, parts);
    if l, code :| s.Usable(columns, l) && code in s.hier[l] && Equal(c.w, Qualified(env, alias, LevelColumn(l).value), code) {
      UsableLevels(s, columns, l);
      var j :| 0 <= j < |LEVELS| && LEVELS[j] == l;
      assert LevelMatches(c.w, env, s, alias, columns, LEVELS[j]);
    }
  }

  lemma {:induction false} NoHierParts(s: Scope, alias: string, columns: set<string>, n: nat)
    requires n <= |LEVELS|
    ensures s.HierParts(alias, columns, n) == [] <==> forall j :: 0 <= j < n ==> !s.Usable(columns, LEVELS[j])
  {
    if n > 0 {
      NoHierParts(s, alias, columns, n - 1);
    }
  }
}
