/** Outer LIMIT enforcement: app/sqlsafety/limiter.py, and its order relative to scoping. */
module Limiter {
  import opened Wrappers
  import opened Relational
  import opened Sql
  import opened SqlFacts
  import opened Profiles
  import opened Injector
  import opened Scoping
  import opened ScopingTheorems
  import opened Guard

  function RootLimit(n: Node): Option<LimitCount> {
    if n.Statement? then None else n.limit
  }

  function LimitNode(n: Node, cap: nat): Node {
    match RootLimit(n)
    case None => WithLimit(n, Some(Plain(cap)))
    case Some(Plain(k)) => if k > cap then WithLimit(n, Some(Plain(cap))) else n
    case Some(Other(_)) => WithLimit(n, Some(Plain(cap)))
  }

  function LimitTree(t: Tree, cap: nat): Tree {
    if t.nodes == [] then t else t.(nodes := t.nodes[0 := LimitNode(t.nodes[0], cap)])
  }

  /** `_limit_value`. */
  function LimitValue(l: LimitCount): Option<int> {
    match l
    case Plain(n) => Some(n)
    case Other(_) => None
  }

  /** `enforce_limit`: clamps the statement's own LIMIT in place. */
  method EnforceLimit(a: Ast, cap: nat)
    requires a.nodes.Length > 0 && !a.nodes[0].Statement?
    modifies a.nodes
    ensures a.View() == LimitTree(old(a.View()), cap)
  {
    var root := a.nodes[0];
    var limit := RootLimit(root);
    if limit.None? {
      a.nodes[0] := WithLimit(root, Some(Plain(cap)));
    } else {
      var current := LimitValue(limit.value);
      if current.None? || current.value > cap {
        a.nodes[0] := WithLimit(root, Some(Plain(cap)));
      }
    }
  }

  // ---- Limiting is taking a prefix ----

  /** CTE bodies are nested nodes. */
  predicate CtesNested(t: Tree) {
    forall k :: 0 <= k < |t.ctes| ==> t.ctes[k].query > 0
  }

  lemma {:induction false} CtesUnaffected(w: World, t: Tree, cap: nat, db: Database, k: nat)
    requires CtesNested(t) && k <= |t.ctes|
    ensures WithCtes(w, LimitTree(t, cap), db, k) == WithCtes(w, t, db, k)
  {
    if k > 0 {
      CtesUnaffected(w, t, cap, db, k - 1);
      var before, q := WithCtes(w, t, db, k - 1), t.ctes[k - 1].query;
      if q < |t.nodes| {
        var c, d := Ctx(w, t, before), Ctx(w, LimitTree(t, cap), before);
        assert c.t.nodes[q..] == d.t.nodes[q..];
        LaterNodesSame(c, d, q, []);
      }
    }
  }

  lemma RootUnaffected(w: World, t: Tree, cap: nat, db: Database)
    requires t.nodes != []
    ensures Shaped(Ctx(w, t, db), 0, []) == Shaped(Ctx(w, LimitTree(t, cap), db), 0, [])
  {
    var c, d := Ctx(w, t, db), Ctx(w, LimitTree(t, cap), db);
    forall k, env: Env | 0 < k < |t.nodes| ensures EvalNode(c, k, env) == EvalNode(d, k, env) {
      assert c.t.nodes[k..] == d.t.nodes[k..];
      LaterNodesSame(c, d, k, env);
    }
    BelowIsNested(c, d, 0);
    ShapedSame(c, d, 0, []);
  }

  lemma AcceptedUnaffected(t: Tree, cap: nat)
    ensures Accepted(LimitTree(t, cap)) <==> Accepted(t)
    ensures Unqualified(LimitTree(t, cap)) <==> Unqualified(t)
    ensures forall s :: NullSafe(s, LimitTree(t, cap)) <==> NullSafe(s, t)
  {
    if t.nodes != [] {
      var n, m := t.nodes[0], LimitTree(t, cap).nodes[0];
      assert n.Select? == m.Select? && (n.Select? ==> n.from == m.from);
      var t' := LimitTree(t, cap);
      assert forall i :: 0 <= i < |t.nodes| ==> t.nodes[i].Select? == t'.nodes[i].Select?;
      assert forall i :: 0 <= i < |t.nodes| && t.nodes[i].Select? ==> t.nodes[i].from == t'.nodes[i].from;
    }
  }

  /** The rows of the statement before its own LIMIT, after its OFFSET. */
  function Unlimited(w: World, t: Tree, db: Database): seq<Row>
    requires t.nodes != [] && !t.nodes[0].Statement?
  {
    Drop(t.nodes[0].offset, Shaped(Ctx(w, t, WithCtes(w, t, db, |t.ctes|)), 0, []).rows)
  }

  /** How many rows the statement's own LIMIT lets through; None if it has none. */
  function OwnCount(w: World, t: Tree): Option<int>
    requires t.nodes != []
  {
    match RootLimit(t.nodes[0])
    case None => None
    case Some(Plain(n)) => Some(n)
    case Some(Other(id)) => Some(w.count(id))
  }

  /** The capped statement yields a prefix of the statement without its LIMIT, never more than `cap` rows; it is the first `cap`
      rows of the statement itself exactly unless the LIMIT is not a plain integer, lets fewer than `cap` rows through, and
      cuts the result short. */
  lemma LimitIsPrefix(w: World, t: Tree, cap: nat, db: Database)
    requires Accepted(t) && CtesNested(t) && !t.nodes[0].Statement?
    ensures Run(w, t, db).Some? && Run(w, LimitTree(t, cap), db).Some?
    ensures var capped, full := Run(w, LimitTree(t, cap), db).value, Run(w, t, db).value;
      && capped.cols == full.cols && |capped.rows| <= cap && capped.rows <= Unlimited(w, t, db)
      && (capped.rows == Take(cap, full.rows) <==>
            !(RootLimit(t.nodes[0]).Some? && RootLimit(t.nodes[0]).value.Other? && OwnCount(w, t).value < cap
              && OwnCount(w, t).value < |Unlimited(w, t, db)|))
  {
    AcceptedUnaffected(t, cap);
    CtesUnaffected(w, t, cap, db, |t.ctes|);
    RootUnaffected(w, t, cap, WithCtes(w, t, db, |t.ctes|));
    CutRows(w, t, db);
    CutRows(w, LimitTree(t, cap), db);
    CappedCut(w, RootLimit(t.nodes[0]), cap, Unlimited(w, t, db));
  }

  /** What a LIMIT lets through. */
  function Cut(w: World, limit: Option<LimitCount>, rows: seq<Row>): seq<Row> {
    match limit
    case None => rows
    case Some(Plain(n)) => Take(n, rows)
    case Some(Other(id)) => Take(w.count(id), rows)
  }

  lemma CutRows(w: World, t: Tree, db: Database)
    requires Accepted(t) && t.nodes != [] && !t.nodes[0].Statement?
    ensures Run(w, t, db).Some? && Run(w, t, db).value.rows == Cut(w, RootLimit(t.nodes[0]), Unlimited(w, t, db))
    ensures Run(w, t, db).value.cols == Shaped(Ctx(w, t, WithCtes(w, t, db, |t.ctes|)), 0, []).cols
  {
  }

  function CappedLimit(limit: Option<LimitCount>, cap: nat): Option<LimitCount> {
    if limit.Some? && limit.value.Plain? && limit.value.n <= cap then limit else Some(Plain(cap))
  }

  lemma CappedCut(w: World, limit: Option<LimitCount>, cap: nat, rows: seq<Row>)
    ensures var capped := Cut(w, CappedLimit(limit, cap), rows);
      && |capped| <= cap && capped <= rows
      && (capped == Take(cap, Cut(w, limit, rows)) <==>
            !(limit.Some? && limit.value.Other? && w.count(limit.value.id) < cap && w.count(limit.value.id) < |rows|))
  {
    if limit.Some? && limit.value.Other? {
      var n := w.count(limit.value.id);
      assert |Take(n, rows)| == if n < 0 then 0 else if n < |rows| then n else |rows|;
      assert |Take(cap, Take(n, rows))| == if cap < |Take(n, rows)| then cap else |Take(n, rows)|;
    } else if limit.Some? {
      TakeTake(cap, limit.value.n, rows);
    }
  }

  lemma TakeTake<T>(a: int, b: int, s: seq<T>)
    ensures Take(a, Take(b, s)) == Take(if a < b then a else b, s)
  {
  }

  // ---- Limiting and scoping commute ----

  lemma ScopeLimitedNode(s: Scope, n: Node, cap: nat)
    ensures ScopeNode(s, LimitNode(n, cap)) ==
      match ScopeNode(s, n) case Ok(m) => Ok(LimitNode(m, cap)) case Err(e) => Err(e)
  {
  }

  lemma {:induction false} ScopeLimitedNodes(s: Scope, nodes: seq<Node>, cap: nat, k: nat)
    requires nodes != [] && k <= |nodes|
    ensures ScopeNodes(s, nodes[0 := LimitNode(nodes[0], cap)], k) ==
      match ScopeNodes(s, nodes, k) case Ok(ns) => Ok(ns[0 := LimitNode(ns[0], cap)]) case Err(e) => Err(e)
  {
    if k > 0 {
      ScopeLimitedNodes(s, nodes, cap, k - 1);
      if ScopeNodes(s, nodes, k - 1).Ok? {
        var ns := ScopeNodes(s, nodes, k - 1).value;
        var ns' := ns[0 := LimitNode(ns[0], cap)];
        ScopeLimitedNode(s, ns[k - 1], cap);
        if k > 1 {
          assert ns'[k - 1] == ns[k - 1];
        }
        if ScopeNode(s, ns[k - 1]).Ok? {
          var m := ScopeNode(s, ns[k - 1]).value;
          var n0 := if k == 1 then m else ns[0];
          assert ns'[k - 1 := ScopeNode(s, ns'[k - 1]).value] == ns[k - 1 := m][0 := LimitNode(n0, cap)];
        }
      }
    }
  }

  /** `apply_scope(enforce_limit(t))` and `enforce_limit(apply_scope(t))` are the same tree, or the same refusal. */
  lemma LimitAndScopeCommute(cat: Catalog, p: Profile, subtree: HierMap, t: Tree, cap: nat)
    ensures ScopeTree(cat, p, subtree, LimitTree(t, cap)) ==
      match ScopeTree(cat, p, subtree, t) case Ok(t') => Ok(LimitTree(t', cap)) case Err(e) => Err(e)
  {
    if t.nodes != [] && !p.IsUnrestricted() {
      ScopeLimitedNodes(ScopeOf(cat, p, subtree), t.nodes, cap, |t.nodes|);
    }
  }

  datatype ScopedError = NotSafe(safety: SafetyError) | Refused(rbac: RbacError)

  /** `scoped_sql`: guard, then scope, then cap. */
  method ScopedSql(cat: Catalog, sql: SqlText, p: Profile, subtree: HierMap, cap: nat) returns (r: Result<Tree, ScopedError>)
    ensures r == match AssertSafe(cat, sql)
                 case Err(e) => Err(NotSafe(e))
                 case Ok(t) => match ScopeTree(cat, p, subtree, LimitTree(t, cap))
                               case Err(e) => Err(Refused(e))
                               case Ok(final) => Ok(final)
  {
    var safe := AssertSafe(cat, sql);
    if safe.Err? {
      return Err(NotSafe(safe.error));
    }
    var scoped := ApplyScope(cat, safe.value, p, subtree);
    LimitAndScopeCommute(cat, p, subtree, safe.value, cap);
    if scoped.Err? {
      return Err(Refused(scoped.error));
    }
    GuardedRoot(cat, sql, p, subtree);
    var a := new Ast.Parse(scoped.value);
    EnforceLimit(a, cap);
    return Ok(a.View());
  }

  lemma GuardedRoot(cat: Catalog, sql: SqlText, p: Profile, subtree: HierMap)
    requires AssertSafe(cat, sql).Ok? && ScopeTree(cat, p, subtree, sql.first).Ok?
    ensures var t := ScopeTree(cat, p, subtree, sql.first).value; t.nodes != [] && !t.nodes[0].Statement?
  {
    GuardMeaning(cat, sql);
    if !p.IsUnrestricted() {
      ScopeNodesEach(ScopeOf(cat, p, subtree), sql.first.nodes, |sql.first.nodes|);
      assert ScopeNode(ScopeOf(cat, p, subtree), sql.first.nodes[0]).Ok?;
    }
  }

  /** What the database finally runs for a restricted user: for a guarded statement in which no join can null-extend a scoped
      table and whose LIMIT is a plain integer or missing, the first `cap` rows of the original statement on the rows the user may see. */
  lemma FinalQuery(w: World, cat: Catalog, sql: SqlText, p: Profile, subtree: HierMap, cap: nat, db: Database)
    requires AssertSafe(cat, sql).Ok? && !p.IsUnrestricted() && ScopeTree(cat, p, subtree, LimitTree(sql.first, cap)).Ok?
    requires NoShadowing(ScopeOf(cat, p, subtree), sql.first) && NullSafe(ScopeOf(cat, p, subtree), sql.first) && CtesNested(sql.first)
    requires RootLimit(sql.first.nodes[0]).Some? ==> RootLimit(sql.first.nodes[0]).value.Plain?
    ensures var t, visible := sql.first, VisibleDatabase(w, ScopeOf(cat, p, subtree), db);
      Run(w, ScopeTree(cat, p, subtree, LimitTree(t, cap)).value, db) ==
        match Run(w, t, visible) case None => None case Some(r) => Some(Relation(r.cols, Take(cap, r.rows)))
  {
    GuardMeaning(cat, sql);
    var t, visible := sql.first, VisibleDatabase(w, ScopeOf(cat, p, subtree), db);
    AcceptedUnaffected(t, cap);
    ScopingIsFiltering(w, cat, p, subtree, LimitTree(t, cap), db);
    if Accepted(t) {
      LimitIsPrefix(w, t, cap, visible);
    }
  }
}
