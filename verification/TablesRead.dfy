/** Which tables a statement reads: app/sqlsafety/guard.py promises that all of them are whitelisted. */
module TablesRead {
  import opened Wrappers
  import opened Relational
  import opened Sql
  import opened SqlFacts
  import opened Profiles
  import opened SortedStrings
  import opened Injector
  import opened ScopingTheorems
  import opened Guard
  import opened Limiter

  // ---- Names and tables ----

  ghost predicate Names(n: Node, name: string) {
    n.Select? && exists j :: 0 <= j < |n.from| && n.from[j].source.Base? && SourceKey(n.from[j].source) == name
  }

  /** The query at `i`, or one nested in it, has this name in a FROM. */
  ghost predicate Mentions(t: Tree, i: nat, name: string)
    decreases |t.nodes| - i
  {
    i < |t.nodes|
    && (Names(t.nodes[i], name) || exists q :: i < q < |t.nodes| && NodeQuery(t.nodes[i], q) && Mentions(t, q, name))
  }

  /** One of the first `k` CTEs has this name. */
  ghost predicate IsCte(t: Tree, k: nat, name: string)
    requires k <= |t.ctes|
  {
    exists j :: 0 <= j < k && t.ctes[j].name == name
  }

  /** The statement reads the table of this name: a name means a table where it is not a CTE, and the body of a CTE sees only the
      CTEs before it. */
  ghost predicate Reads(t: Tree, name: string) {
    || (Mentions(t, 0, name) && !IsCte(t, |t.ctes|, name))
    || exists k :: 0 <= k < |t.ctes| && Mentions(t, t.ctes[k].query, name) && !IsCte(t, k, name)
  }

  // ---- A result depends on the tables that are read, and on no other ----

  ghost predicate AgreeOnMentioned(c: Ctx, d: Ctx, i: nat) {
    forall name :: Mentions(c.t, i, name) ==> Agree(c.db, d.db, name)
  }

  lemma {:induction false} MentionedDecide(c: Ctx, d: Ctx, i: nat, env: Env)
    requires c.t == d.t && c.w == d.w && i < |c.t.nodes| && AgreeOnMentioned(c, d, i)
    ensures EvalNode(c, i, env) == EvalNode(d, i, env)
    decreases |c.t.nodes| - i
  {
    var n := c.t.nodes[i];
    forall q: nat | NodeQuery(n, q) ensures SameQuery(c, d, i, q) {
      if i < q < |c.t.nodes| {
        assert forall name :: Mentions(c.t, q, name) ==> Mentions(c.t, i, name);
        forall e: Env ensures EvalSub(c, i, q, e) == EvalSub(d, i, q, e) {
          MentionedDecide(c, d, q, e);
        }
      }
    }
    if n.Select? {
      forall j | 0 <= j < |n.from| && n.from[j].source.Base? ensures Agree(c.db, d.db, SourceKey(n.from[j].source)) {
        assert Names(n, SourceKey(n.from[j].source));
      }
    }
    ShapedSame(c, d, i, env);
  }

  ghost predicate AgreeOnRead(t: Tree, db: Database, db': Database) {
    forall name :: Reads(t, name) ==> Agree(db, db', name)
  }

  lemma {:induction false} CtesAgree(w: World, t: Tree, db: Database, db': Database, k: nat)
    requires k <= |t.ctes| && AgreeOnRead(t, db, db')
    ensures forall name :: IsCte(t, k, name) || Agree(db, db', name) ==> Agree(WithCtes(w, t, db, k), WithCtes(w, t, db', k), name)
  {
    if k > 0 {
      CtesAgree(w, t, db, db', k - 1);
      var b, b' := WithCtes(w, t, db, k - 1), WithCtes(w, t, db', k - 1);
      var q := t.ctes[k - 1].query;
      if q < |t.nodes| {
        forall name | Mentions(t, q, name) ensures Agree(b, b', name) {
          assert IsCte(t, k - 1, name) || Reads(t, name);
        }
        MentionedDecide(Ctx(w, t, b), Ctx(w, t, b'), q, []);
      }
      assert forall name :: IsCte(t, k, name) <==> IsCte(t, k - 1, name) || name == t.ctes[k - 1].name;
    }
  }

  /** The result of a statement is decided by the tables it reads. */
  lemma ReadDecides(w: World, t: Tree, db: Database, db': Database)
    requires AgreeOnRead(t, db, db')
    ensures Run(w, t, db) == Run(w, t, db')
  {
    if Accepted(t) {
      CtesAgree(w, t, db, db', |t.ctes|);
      var c, d := Ctx(w, t, WithCtes(w, t, db, |t.ctes|)), Ctx(w, t, WithCtes(w, t, db', |t.ctes|));
      forall name | Mentions(t, 0, name) ensures Agree(c.db, d.db, name) {
        assert IsCte(t, |t.ctes|, name) || Reads(t, name);
      }
      MentionedDecide(c, d, 0, []);
    }
  }

  // ---- What the guard lets through ----

  /** In the body of a CTE, a name off the whitelist is that of an earlier CTE. */
  ghost predicate CtesKnown(cat: Catalog, t: Tree) {
    forall k, name :: 0 <= k < |t.ctes| && Mentions(t, t.ctes[k].query, name) && name !in cat.whitelist ==> IsCte(t, k, name)
  }

  /** What the guard promises of tables. */
  ghost predicate ReadsListed(cat: Catalog, t: Tree) {
    forall name :: Reads(t, name) ==> name in cat.whitelist
  }

  lemma {:induction false} MentionedAllowed(cat: Catalog, t: Tree, i: nat, name: string)
    requires Safe(cat, t) && Mentions(t, i, name) && name !in cat.whitelist
    ensures IsCte(t, |t.ctes|, name)
    decreases |t.nodes| - i
  {
    var n := t.nodes[i];
    if Names(n, name) {
      assert SafeNode(cat, CteNames(t), n);
      var j :| 0 <= j < |n.from| && n.from[j].source.Base? && SourceKey(n.from[j].source) == name;
      assert Allowed(cat, CteNames(t), n.from[j].source);
    } else {
      var q :| i < q < |t.nodes| && NodeQuery(n, q) && Mentions(t, q, name);
      MentionedAllowed(cat, t, q, name);
    }
  }

  /** A statement that passes the guard reads whitelisted tables only, exactly when each name off the whitelist in the body of a CTE
      is that of an earlier CTE: the guard matches names of CTEs without regard to where they are visible. */
  lemma GuardedReads(cat: Catalog, sql: SqlText)
    requires AssertSafe(cat, sql).Ok?
    ensures ReadsListed(cat, sql.first) <==> CtesKnown(cat, sql.first)
  {
    GuardMeaning(cat, sql);
    var t := sql.first;
    forall name | Mentions(t, 0, name) && !IsCte(t, |t.ctes|, name) ensures name in cat.whitelist {
      if name !in cat.whitelist {
        MentionedAllowed(cat, t, 0, name);
      }
    }
    if ReadsListed(cat, t) {
      forall k, name | 0 <= k < |t.ctes| && Mentions(t, t.ctes[k].query, name) && name !in cat.whitelist ensures IsCte(t, k, name) {
        assert !Reads(t, name);
      }
    }
  }

  /** The whitelisted part of a database. */
  function Listed(cat: Catalog, db: Database): Database {
    map name | name in db && name in cat.whitelist :: db[name]
  }

  /** Such a statement returns the same whether or not there are any other tables. */
  lemma ListedDecides(w: World, cat: Catalog, t: Tree, db: Database)
    requires ReadsListed(cat, t)
    ensures Run(w, t, db) == Run(w, t, Listed(cat, db))
  {
    ReadDecides(w, t, db, Listed(cat, db));
  }

  // ---- Limiting and scoping read no other tables ----

  /** `t'` differs from `t` in WHERE and LIMIT at most and has no new nested queries. */
  ghost predicate NoNewQueries(t: Tree, t': Tree) {
    && |t'.nodes| == |t.nodes| && t'.ctes == t.ctes
    && forall i :: 0 <= i < |t.nodes| ==> NodeAlike(t.nodes[i], t'.nodes[i])
  }

  ghost predicate NodeAlike(n: Node, n': Node) {
    (n'.Select? ==> n.Select? && n'.from == n.from) && forall q: nat :: NodeQuery(n', q) ==> NodeQuery(n, q)
  }

  lemma {:induction false} MentionedBefore(t: Tree, t': Tree, i: nat, name: string)
    requires NoNewQueries(t, t') && Mentions(t', i, name)
    ensures Mentions(t, i, name)
    decreases |t.nodes| - i
  {
    assert NodeAlike(t.nodes[i], t'.nodes[i]);
    if !Names(t'.nodes[i], name) {
      var q :| i < q < |t'.nodes| && NodeQuery(t'.nodes[i], q) && Mentions(t', q, name);
      MentionedBefore(t, t', q, name);
    }
  }

  lemma ReadBefore(cat: Catalog, t: Tree, t': Tree)
    requires NoNewQueries(t, t') && ReadsListed(cat, t)
    ensures ReadsListed(cat, t')
  {
    forall name | Reads(t', name) ensures name in cat.whitelist {
      if Mentions(t', 0, name) && !IsCte(t', |t'.ctes|, name) {
        MentionedBefore(t, t', 0, name);
      } else {
        var k :| 0 <= k < |t'.ctes| && Mentions(t', t'.ctes[k].query, name) && !IsCte(t', k, name);
        MentionedBefore(t, t', t.ctes[k].query, name);
      }
      assert Reads(t, name);
    }
  }

  lemma LimitedAlike(t: Tree, cap: nat)
    ensures NoNewQueries(t, LimitTree(t, cap))
  {
  }

  ghost predicate NoQuery(e: Expr) {
    forall q: nat :: !QueryIn(e, q)
  }

  lemma {:induction false} LiteralsNoQuery(values: seq<string>, q: nat)
    ensures !QueryAmong(Literals(values), q)
  {
    if values != [] {
      LiteralsNoQuery(values[1..], q);
    }
  }

  lemma EqOrInNoQuery(alias: string, column: string, values: seq<string>)
    ensures NoQuery(EqOrIn(alias, column, values))
  {
    forall q: nat ensures !QueryIn(EqOrIn(alias, column, values), q) {
      LiteralsNoQuery(values, q);
    }
  }

  lemma {:induction false} HierPartsNoQuery(s: Scope, alias: string, columns: set<string>, k: nat)
    requires k <= |LEVELS|
    ensures forall e :: e in s.HierParts(alias, columns, k) ==> NoQuery(e)
  {
    if k > 0 {
      HierPartsNoQuery(s, alias, columns, k - 1);
      var l := LEVELS[k - 1];
      if s.Usable(columns, l) {
        EqOrInNoQuery(alias, LevelColumn(l).value, SortedCodes(s.hier[l]));
      }
    }
  }

  lemma {:induction false} OrAllNoQuery(parts: seq<Expr>)
    requires parts != [] && forall e :: e in parts ==> NoQuery(e)
    ensures NoQuery(OrAll(parts))
  {
    if |parts| > 1 {
      OrAllNoQuery(parts[..|parts| - 1]);
    }
    assert NoQuery(parts[|parts| - 1]);
  }

  lemma TablePredicateNoQuery(s: Scope, name: string, alias: string)
    ensures var p := s.TablePredicate(name, alias); p.Some? ==> NoQuery(p.value)
  {
    var columns := TableColumns(s.cat, name);
    EqOrInNoQuery(alias, s.p.geoCol, s.p.geoVals);
    HierPartsNoQuery(s, alias, columns, |LEVELS|);
    var parts := s.HierParts(alias, columns, |LEVELS|);
    if parts != [] {
      OrAllNoQuery(parts);
    }
  }

  ghost predicate FilterQuery(filter: Option<Expr>, q: nat) {
    filter.Some? && QueryIn(filter.value, q)
  }

  lemma AddedNoQuery(s: Scope, filter: Option<Expr>, src: Source)
    requires src.Base? && ScopeTable(s, filter, src).Ok?
    ensures forall q: nat :: FilterQuery(ScopeTable(s, filter, src).value, q) ==> FilterQuery(filter, q)
  {
    var p := s.TablePredicate(src.name, src.AliasOrName()).value;
    TablePredicateNoQuery(s, src.name, src.AliasOrName());
    forall q: nat | FilterQuery(AddWhere(filter, p), q) ensures FilterQuery(filter, q) {
      assert !QueryIn(p, q);
    }
  }

  lemma {:induction false} ScopeFromNoQuery(s: Scope, filter: Option<Expr>, from: seq<FromItem>, k: nat)
    requires k <= |from| && ScopeFrom(s, filter, from, k).Ok?
    ensures forall q: nat :: FilterQuery(ScopeFrom(s, filter, from, k).value, q) ==> FilterQuery(filter, q)
  {
    if k > 0 {
      ScopeFromNoQuery(s, filter, from, k - 1);
      var src := from[k - 1].source;
      if src.Base? && s.Scoped(src.name) {
        AddedNoQuery(s, ScopeFrom(s, filter, from, k - 1).value, src);
      }
    }
  }

  lemma ScopedNodeAlike(s: Scope, n: Node)
    requires ScopeNode(s, n).Ok?
    ensures NodeAlike(n, ScopeNode(s, n).value)
  {
    if n.Select? {
      ScopeFromNoQuery(s, n.filter, n.from, |n.from|);
      var f := ScopeFrom(s, n.filter, n.from, |n.from|).value;
      forall q: nat | NodeQuery(n.(filter := f), q) ensures NodeQuery(n, q) {
        assert FilterQuery(f, q) ==> FilterQuery(n.filter, q);
      }
    }
  }

  lemma ScopedAlike(cat: Catalog, p: Profile, subtree: HierMap, t: Tree)
    requires ScopeTree(cat, p, subtree, t).Ok?
    ensures NoNewQueries(t, ScopeTree(cat, p, subtree, t).value)
  {
    if !p.IsUnrestricted() {
      var s, t' := ScopeOf(cat, p, subtree), ScopeTree(cat, p, subtree, t).value;
      ScopeNodesEach(s, t.nodes, |t.nodes|);
      forall i | 0 <= i < |t.nodes| ensures NodeAlike(t.nodes[i], t'.nodes[i]) {
        assert ScopeNode(s, t.nodes[i]) == Ok(t'.nodes[i]);
        ScopedNodeAlike(s, t.nodes[i]);
      }
    }
  }

  /** What is finally run for a statement that reads whitelisted tables only reads no others. */
  lemma FinalReadsListed(cat: Catalog, p: Profile, subtree: HierMap, t: Tree, cap: nat)
    requires ReadsListed(cat, t) && ScopeTree(cat, p, subtree, LimitTree(t, cap)).Ok?
    ensures ReadsListed(cat, ScopeTree(cat, p, subtree, LimitTree(t, cap)).value)
  {
    LimitedAlike(t, cap);
    ReadBefore(cat, t, LimitTree(t, cap));
    ScopedAlike(cat, p, subtree, LimitTree(t, cap));
    ReadBefore(cat, LimitTree(t, cap), ScopeTree(cat, p, subtree, LimitTree(t, cap)).value);
  }

  /** If it reads whitelisted tables only, what a restricted user gets back is the same on any two databases whose whitelisted parts
      differ only in rows the user may not see. */
  lemma ListedResultIndependent(w: World, cat: Catalog, p: Profile, subtree: HierMap, t: Tree, cap: nat, db: Database, db': Database)
    requires ReadsListed(cat, t) && Unqualified(t) && !p.IsUnrestricted() && ScopeTree(cat, p, subtree, LimitTree(t, cap)).Ok?
    requires LooksSame(w, ScopeOf(cat, p, subtree), Listed(cat, db), Listed(cat, db'))
    ensures var f := ScopeTree(cat, p, subtree, LimitTree(t, cap)).value; Run(w, f, db) == Run(w, f, db')
  {
    var f := ScopeTree(cat, p, subtree, LimitTree(t, cap)).value;
    FinalReadsListed(cat, p, subtree, t, cap);
    ListedDecides(w, cat, f, db);
    ListedDecides(w, cat, f, db');
    AcceptedUnaffected(t, cap);
    ScopedResultIndependent(w, cat, p, subtree, LimitTree(t, cap), Listed(cat, db), Listed(cat, db'));
  }

  // ---- A CTE that reads a table of its own name ----

  /** SELECT * FROM o */
  function AllOf(name: string): Node {
    Select(None, [FromItem(Cross, Base("", name, ""), None)], None, 0, [], None, 0, {})
  }

  /** WITH o AS (SELECT * FROM o) SELECT * FROM o */
  function OwnName(name: string): Tree {
    Tree([AllOf(name), AllOf(name)], [], [], [Cte(name, 1)])
  }

  /** No grouping, ordering or DISTINCT. */
  ghost predicate ShowsAll(w: World) {
    forall shown :: w.shape(0, shown) == Map((x: Shown) => x.row, shown)
  }

  lemma OwnNamePasses(cat: Catalog, name: string)
    requires name != ""
    ensures AssertSafe(cat, Parsed(OwnName(name), [])).Ok?
  {
    var t := OwnName(name);
    assert t.ctes[0].name in CteNames(t);
    forall i | 0 <= i < |t.nodes| ensures SafeNode(cat, CteNames(t), t.nodes[i]) {
      assert t.nodes[i] == AllOf(name);
    }
    GuardMeaning(cat, Parsed(t, []));
  }

  lemma AllOfUnscoped(s: Scope, name: string)
    requires !s.Scoped(name)
    ensures ScopeNode(s, AllOf(name)) == Ok(AllOf(name))
  {
    var n := AllOf(name);
    assert ScopeFrom(s, n.filter, n.from, 0) == Ok(n.filter);
    assert ScopeFrom(s, n.filter, n.from, 1) == Ok(n.filter);
  }

  lemma OwnNameUnscoped(cat: Catalog, p: Profile, subtree: HierMap, name: string)
    requires name !in cat.whitelist
    requires p.IsUnrestricted() || p.GeoAvailable() || EffectiveHierMap(p, subtree) != map[]
    ensures ScopeTree(cat, p, subtree, OwnName(name)) == Ok(OwnName(name))
  {
    if !p.IsUnrestricted() {
      var s, nodes := ScopeOf(cat, p, subtree), OwnName(name).nodes;
      AllOfUnscoped(s, name);
      assert ScopeNodes(s, nodes, 0) == Ok(nodes) && nodes[0 := nodes[0]] == nodes && nodes[1 := nodes[1]] == nodes;
      assert ScopeNodes(s, nodes, 1) == Ok(nodes) && ScopeNodes(s, nodes, 2) == Ok(nodes);
    }
  }

  lemma {:induction false} ExtendEach(on: Frame -> bool, bs: seq<Bind>)
    requires forall b :: b in bs ==> on([b])
    ensures Extend(on, [], bs) == Map((b: Bind) => [b], bs)
  {
    if bs != [] {
      assert [] + [bs[0]] == [bs[0]];
      ExtendEach(on, bs[1..]);
    }
  }

  lemma AllOfFrames(c: Ctx, i: nat, name: string)
    requires c.IsSelect(i) && c.t.nodes[i] == AllOf(name) && name in c.db
    ensures Kept(c, i, []) == Map((b: Bind) => [b], Binds(name, c.db[name]))
    ensures OutputCols(c, i, []) == c.db[name].cols
  {
    var r := c.db[name];
    var on := (f: Frame) => Holds(c, i, [], None, f);
    var start: seq<Frame> := [[]];
    assert Frames(c, i, [], 0) == start && start[1..] == [];
    ExtendEach(on, Binds(name, r));
    assert InnerJoin(on, start, Binds(name, r)) == Extend(on, [], Binds(name, r)) + InnerJoin(on, start[1..], Binds(name, r));
    assert SourceRelation(c, i, [], c.t.nodes[i].from[0].source) == r;
    assert Frames(c, i, [], 1) == InnerJoin(on, start, Binds(name, r));
    FilterAll(on, Frames(c, i, [], 1));
    assert Blank(c, i, [], 0) == [] && Blank(c, i, [], 1) == [NullBind(name, r)];
    assert StarCols([NullBind(name, r)]) == r.cols + StarCols([NullBind(name, r)][1..]) == r.cols;
  }

  lemma AllOfReturns(c: Ctx, i: nat, name: string)
    requires c.IsSelect(i) && c.t.nodes[i] == AllOf(name) && name in c.db && ShowsAll(c.w)
    ensures EvalNode(c, i, []) == c.db[name]
  {
    var r := c.db[name];
    AllOfFrames(c, i, name);
    var show := (f: Frame) => Shown(OutputRow(c, i, [], f), ItemRow(c, i, f + [], []));
    var shown := Map(show, Kept(c, i, []));
    var rows := Map((x: Shown) => x.row, shown);
    forall k | 0 <= k < |r.rows| ensures rows[k] == r.rows[k] {
      var f := Kept(c, i, [])[k];
      assert f == [Bind(name, r.cols, Some(r.rows[k]))];
      assert StarRow(f) == BindRow(f[0]) + StarRow(f[1..]) == r.rows[k];
    }
    assert rows == r.rows;
    assert Shaped(c, i, []) == Relation(r.cols, c.w.shape(0, shown));
  }

  /** A statement that passes the guard whatever the whitelist, that scoping leaves as it is, and that returns the whole table. */
  lemma OwnNameReadsTable(w: World, cat: Catalog, p: Profile, subtree: HierMap, db: Database, name: string)
    requires name != "" && name !in cat.whitelist && name in db && ShowsAll(w)
    requires p.IsUnrestricted() || p.GeoAvailable() || EffectiveHierMap(p, subtree) != map[]
    ensures AssertSafe(cat, Parsed(OwnName(name), [])).Ok? && ScopeTree(cat, p, subtree, OwnName(name)) == Ok(OwnName(name))
    ensures Run(w, OwnName(name), db) == Some(db[name]) && !ReadsListed(cat, OwnName(name))
  {
    var t := OwnName(name);
    OwnNamePasses(cat, name);
    OwnNameUnscoped(cat, p, subtree, name);
    assert WithCtes(w, t, db, 0) == db;
    AllOfReturns(Ctx(w, t, db), 1, name);
    var after := WithCtes(w, t, db, 1);
    assert after == db[name := db[name]] == db;
    AllOfReturns(Ctx(w, t, after), 0, name);
    assert Names(t.nodes[1], name) && Mentions(t, t.ctes[0].query, name) && !IsCte(t, 0, name);
    assert Reads(t, name);
  }
}
