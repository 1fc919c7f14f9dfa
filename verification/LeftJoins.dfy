/** A left join for which scoping is not filtering: app/rbac/injector.py. */
module LeftJoins {
  import opened Wrappers
  import opened Relational
  import opened Sql
  import opened Profiles
  import opened Injector
  import opened ScopingTheorems

  const CATALOG := Catalog({"b"}, {}, map["b" := {"g"}], {}, map[], map[])
  const USER := Profile("u", "ASM", None, "", "g", ["x"])
  const INJECTED := Compare("=", Field("b", "g"), Built("x"))
  const JOINED: seq<FromItem> := [FromItem(Cross, Base("", "a", ""), None), FromItem(JoinKind.Left, Base("", "b", ""), None)]

  /** `SELECT * FROM a LEFT JOIN b`, with or without a WHERE. */
  function Query(filter: Option<Expr>): Tree {
    Tree([Select(None, JOINED, filter, 0, [], None, 0, {})], [], [], [])
  }

  /** One row in `a`, none in `b`: nothing is hidden from anyone. */
  const DATABASE: Database := map["a" := Relation(["k"], [[Int(1)]]), "b" := Relation(["g"], [])]

  const MATCHLESS: Relational.Frame := [Bind("a", ["k"], Some([Int(1)])), Bind("b", ["g"], None)]

  lemma ScopedQuery()
    ensures ScopeTree(CATALOG, USER, map[], Query(None)) == Ok(Query(Some(INJECTED)))
  {
    var s := ScopeOf(CATALOG, USER, map[]);
    assert s.hier == map[];
    assert s.HierParts("b", {"g"}, |LEVELS|) == [] by {
      Scoping.NoHierParts(s, "b", {"g"}, |LEVELS|);
    }
    assert TableColumns(CATALOG, "b") == {"g"};
    assert s.TablePredicate("b", "b") == Some(INJECTED);
    assert ScopeFrom(s, None, JOINED, 1) == Ok(None);
    assert ScopeFrom(s, None, JOINED, 2) == Ok(Some(INJECTED));
    assert ScopeNode(s, Query(None).nodes[0]) == Ok(Query(Some(INJECTED)).nodes[0]);
    assert ScopeNodes(s, Query(None).nodes, 0) == Ok(Query(None).nodes);
    assert Query(None).nodes[0 := Query(Some(INJECTED)).nodes[0]] == Query(Some(INJECTED)).nodes;
  }

  lemma CrossOne(on: Relational.Frame -> bool, b: Bind)
    requires on([b])
    ensures InnerJoin(on, [[]], [b]) == [[b]]
  {
    assert [] + [b] == [b];
    assert Extend(on, [], [b]) == [[b]];
    assert InnerJoin(on, [[]], [b]) == Extend(on, [], [b]) + InnerJoin(on, [[]][1..], [b]);
  }

  lemma LeftOne(on: Relational.Frame -> bool, l: Relational.Frame, nul: Bind)
    ensures Relational.LeftJoin(on, [l], [], nul) == [l + [nul]]
  {
    assert Relational.LeftJoin(on, [l], [], nul) == [l + [nul]] + Relational.LeftJoin(on, [l][1..], [], nul);
  }

  lemma FilterOne(p: Relational.Frame -> bool, f: Relational.Frame)
    ensures Filter(p, [f]) == if p(f) then [f] else []
  {
    assert [f][1..] == [];
  }

  lemma OneFrame(w: World, filter: Option<Expr>)
    ensures Frames(Ctx(w, Query(filter), DATABASE), 0, [], 2) == [MATCHLESS]
  {
    var c := Ctx(w, Query(filter), DATABASE);
    var first := MATCHLESS[0];
    assert Binds("a", DATABASE["a"]) == [first];
    assert Frames(c, 0, [], 0) == [[]];
    CrossOne((f: Relational.Frame) => Holds(c, 0, [], JOINED[0].on, f), first);
    assert Frames(c, 0, [], 1) == [[first]];
    assert Binds("b", DATABASE["b"]) == [];
    LeftOne((f: Relational.Frame) => Holds(c, 0, [], JOINED[1].on, f), [first], MATCHLESS[1]);
    assert [first] + [MATCHLESS[1]] == MATCHLESS;
  }

  lemma KeepsRow(w: World)
    ensures Kept(Ctx(w, Query(None), DATABASE), 0, []) == [MATCHLESS]
  {
    OneFrame(w, None);
    FilterOne((f: Relational.Frame) => Holds(Ctx(w, Query(None), DATABASE), 0, [], None, f), MATCHLESS);
  }

  lemma InjectedIsNull(c: Ctx)
    requires |c.t.nodes| == 1
    ensures EvalExpr(c, 0, MATCHLESS + [], INJECTED) == Null
  {
    var env := MATCHLESS + [];
    assert env[0] == MATCHLESS[0] && env[1..][0] == MATCHLESS[1];
    assert Qualified(env, "b", "g") == Null;
  }

  lemma DropsRow(w: World)
    ensures Kept(Ctx(w, Query(Some(INJECTED)), DATABASE), 0, []) == []
  {
    var d := Ctx(w, Query(Some(INJECTED)), DATABASE);
    OneFrame(w, Some(INJECTED));
    InjectedIsNull(d);
    FilterOne((f: Relational.Frame) => Holds(d, 0, [], Some(INJECTED), f), MATCHLESS);
  }

  /** The statement keeps its row, the scoped statement drops it, although no row of the database is hidden. */
  lemma LeftJoinLosesUnmatchedRow(w: World)
    ensures var scoped := ScopeTree(CATALOG, USER, map[], Query(None));
      && scoped.Ok?
      && Kept(Ctx(w, Query(None), DATABASE), 0, []) == [MATCHLESS]
      && Kept(Ctx(w, scoped.value, DATABASE), 0, []) == []
  {
    ScopedQuery();
    KeepsRow(w);
    DropsRow(w);
  }
}
