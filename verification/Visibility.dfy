/** Which rows a user may see, from the hierarchy table to the rows of a fact table. */
module Visibility {
  import opened Wrappers
  import opened Characters
  import opened Numerals
  import opened Relational
  import opened Sql
  import opened Profiles
  import opened SortedStrings
  import opened Injector
  import opened ScopeColumns
  import opened Hierarchy
  import opened Scoping
  import opened ScopingTheorems

  /** `level` can be filtered on this table, and the row's code at that level is `code`. */
  ghost predicate CarriesCode(w: World, cat: Catalog, name: string, cols: seq<string>, row: Row, level: int, code: string) {
    IsLevel(level) && Offers(cat, name, CodeColumn(level)) && Equal(w, Cell(cols, row, CodeColumn(level)), code)
  }

  /** If geo scope is configured, the row's geo value is one of the user's. */
  ghost predicate GeoAllows(w: World, p: Profile, cols: seq<string>, row: Row) {
    p.geoCol != "" && p.geoVals != [] ==> exists v :: v in p.geoVals && Equal(w, Cell(cols, row, p.geoCol), v)
  }

  /** The code counts for the user at this level: it is below the user, or the user's own. */
  predicate Counts(p: Profile, subtree: HierMap, level: int, code: string) {
    InLevel(subtree, level, code) || (code != "" && p.sfCode == code && p.sfLevel == Some(level))
  }

  lemma CountsIs(cat: Catalog, p: Profile, subtree: HierMap, level: int, code: string)
    ensures InLevel(ScopeOf(cat, p, subtree).hier, level, code) <==> Counts(p, subtree, level, code)
  {
    var m := EffectiveHierMap(p, subtree);
    assert level in m <==> LevelCodes(p, subtree, level) != {};
  }

  /** A row of a table is visible exactly when its geo value is allowed and, if any code counts for the user, the row carries one
      that does, at its level. */
  lemma VisibleByCodes(w: World, cat: Catalog, p: Profile, subtree: HierMap, name: string, cols: seq<string>, row: Row)
    ensures Visible(w, ScopeOf(cat, p, subtree), name, cols, row) <==>
      && GeoAllows(w, p, cols, row)
      && ((exists level, code :: Counts(p, subtree, level, code)) ==>
          exists level, code :: CarriesCode(w, cat, name, cols, row, level, code) && Counts(p, subtree, level, code))
  {
    var s, columns := ScopeOf(cat, p, subtree), TableColumns(cat, name);
    forall level, code
      ensures InLevel(s.hier, level, code) <==> Counts(p, subtree, level, code)
      ensures CarriesCode(w, cat, name, cols, row, level, code) && Counts(p, subtree, level, code) <==>
        s.Usable(columns, level) && code in s.hier[level] && Equal(w, Cell(cols, row, LevelColumn(level).value), code)
    {
      CountsIs(cat, p, subtree, level, code);
      LevelColumnIs(level);
      if IsLevel(level) {
        OffersIs(cat, name, CodeColumn(level));
      }
    }
    HierNotEmpty(cat, p, subtree);
    if level, code :| CarriesCode(w, cat, name, cols, row, level, code) && Counts(p, subtree, level, code) {
      assert s.Usable(columns, level) && code in s.hier[level] && Equal(w, Cell(cols, row, LevelColumn(level).value), code);
    }
    if level, code :| s.Usable(columns, level) && code in s.hier[level] && Equal(w, Cell(cols, row, LevelColumn(level).value), code) {
      assert CarriesCode(w, cat, name, cols, row, level, code) && Counts(p, subtree, level, code);
    }
  }

  lemma HierNotEmpty(cat: Catalog, p: Profile, subtree: HierMap)
    ensures ScopeOf(cat, p, subtree).hier != map[] <==> exists level, code :: Counts(p, subtree, level, code)
  {
    var hier := ScopeOf(cat, p, subtree).hier;
    if l :| l in hier {
      var code :| code in hier[l];
      CountsIs(cat, p, subtree, l, code);
    }
    if level, code :| Counts(p, subtree, level, code) {
      CountsIs(cat, p, subtree, level, code);
    }
  }

  /** The user's own code at the user's level, or a code strictly below `root`, the user's stripped code, at that code's level. */
  ghost predicate OwnOrBelow(rows: seq<HierRow>, p: Profile, root: string, level: int, code: string) {
    || (code != "" && p.sfCode == code && p.sfLevel == Some(level))
    || (code != root && Reachable(rows, root, code) && HasLevel(rows, code, level))
  }

  /** The user has a code and a level, or someone below the user has a level. */
  ghost predicate HasPlace(rows: seq<HierRow>, p: Profile, root: string) {
    exists level, code :: OwnOrBelow(rows, p, root, level, code)
  }

  /** What the hierarchy table, the user's scope and a row say about whether the user may see the row. */
  ghost predicate MaySee(w: World, cat: Catalog, p: Profile, root: string, rows: seq<HierRow>, name: string, cols: seq<string>, row: Row) {
    && GeoAllows(w, p, cols, row)
    && (HasPlace(rows, p, root) ==>
        exists level, code :: CarriesCode(w, cat, name, cols, row, level, code) && OwnOrBelow(rows, p, root, level, code))
  }

  /** A row is visible exactly when its geo value is one of the user's (if geo scope is configured) and, if the user has a place
      in the hierarchy, it carries, at some level the table can be filtered on, the user's own code or one below it. */
  lemma VisibleIff(w: World, cat: Catalog, p: Profile, root: string, rows: seq<HierRow>, subtree: HierMap,
                   name: string, cols: seq<string>, row: Row)
    requires IsSubtree(rows, root, subtree) && LevelIsFunctionOfCode(rows)
    ensures Visible(w, ScopeOf(cat, p, subtree), name, cols, row) <==> MaySee(w, cat, p, root, rows, name, cols, row)
  {
    VisibleByCodes(w, cat, p, subtree, name, cols, row);
    forall level, code ensures Counts(p, subtree, level, code) <==> OwnOrBelow(rows, p, root, level, code) {
      SubtreeIsExact(rows, root, subtree, level, code);
    }
  }

  // ---- What is scoped, and what is refused ----

  /** A user whose statements are scoped. */
  predicate Restricted(p: Profile) {
    p.role != "VP" && p.sfLevel != Some(100)
  }

  /** The tables that are scoped. */
  predicate IsScopedTable(cat: Catalog, name: string) {
    name in cat.whitelist && name != "sales_force_hier_level_t"
  }

  /** The database a user sees: of every whitelisted table but the table of levels, only the visible rows, in order. */
  lemma VisibleDatabaseIs(w: World, cat: Catalog, p: Profile, subtree: HierMap, db: Database, name: string)
    requires name in db
    ensures var s := ScopeOf(cat, p, subtree); var v := VisibleDatabase(w, s, db);
      name in v && v[name].cols == db[name].cols
      && v[name].rows == if IsScopedTable(cat, name) then Filter(row => Visible(w, s, name, db[name].cols, row), db[name].rows) else db[name].rows
  {
  }

  /** The user has any scope at all: a geo scope, or a code that counts. */
  ghost predicate HasScope(p: Profile, subtree: HierMap) {
    (p.geoCol != "" && p.geoVals != []) || exists level, code :: Counts(p, subtree, level, code)
  }

  /** The table can be filtered by every part of the user's scope. */
  ghost predicate CanBeScoped(cat: Catalog, p: Profile, subtree: HierMap, name: string) {
    && (p.geoCol != "" && p.geoVals != [] ==> Offers(cat, name, p.geoCol))
    && ((exists level, code :: Counts(p, subtree, level, code)) ==>
        exists level, code :: Counts(p, subtree, level, code) && IsLevel(level) && Offers(cat, name, CodeColumn(level)))
  }

  /** Every table that a FROM of the statement names, and that is to be scoped, can be. */
  ghost predicate AllCanBeScoped(cat: Catalog, p: Profile, subtree: HierMap, t: Tree) {
    forall i, j :: 0 <= i < |t.nodes| && t.nodes[i].Select? && 0 <= j < |t.nodes[i].from| ==> ItemCanBeScoped(cat, p, subtree, t.nodes[i].from[j])
  }

  ghost predicate ItemCanBeScoped(cat: Catalog, p: Profile, subtree: HierMap, item: FromItem) {
    item.source.Base? && IsScopedTable(cat, item.source.name) ==> CanBeScoped(cat, p, subtree, item.source.name)
  }

  lemma UsableSomewhere(cat: Catalog, p: Profile, subtree: HierMap, name: string, alias: string)
    ensures var s := ScopeOf(cat, p, subtree);
      s.HierPredicate(alias, TableColumns(cat, name)).Some? <==>
        exists level, code :: Counts(p, subtree, level, code) && IsLevel(level) && Offers(cat, name, CodeColumn(level))
  {
    var s, columns := ScopeOf(cat, p, subtree), TableColumns(cat, name);
    NoHierParts(s, alias, columns, |LEVELS|);
    forall l ensures s.Usable(columns, l) <==> IsLevel(l) && Offers(cat, name, CodeColumn(l)) && exists code :: Counts(p, subtree, l, code) {
      LevelColumnIs(l);
      if IsLevel(l) {
        OffersIs(cat, name, CodeColumn(l));
      }
      LevelCounts(cat, p, subtree, l);
    }
    if l :| s.Usable(columns, l) {
      UsableLevels(s, columns, l);
    }
  }

  lemma LevelCounts(cat: Catalog, p: Profile, subtree: HierMap, level: int)
    ensures level in ScopeOf(cat, p, subtree).hier <==> exists code :: Counts(p, subtree, level, code)
  {
    var hier := ScopeOf(cat, p, subtree).hier;
    if level in hier {
      var code :| code in hier[level];
      CountsIs(cat, p, subtree, level, code);
    }
    if code :| Counts(p, subtree, level, code) {
      CountsIs(cat, p, subtree, level, code);
    }
  }

  lemma TableScoped(cat: Catalog, p: Profile, subtree: HierMap, filter: Option<Expr>, src: Source)
    requires src.Base? && HasScope(p, subtree)
    ensures ScopeTable(ScopeOf(cat, p, subtree), filter, src).Ok? <==> CanBeScoped(cat, p, subtree, src.name)
  {
    OffersIs(cat, src.name, p.geoCol);
    UsableSomewhere(cat, p, subtree, src.name, src.AliasOrName());
    HierNotEmpty(cat, p, subtree);
  }

  /** Which refusal a table gets: its geo column first, then its code columns; with a scope there is no other. */
  lemma TableRefusal(cat: Catalog, p: Profile, subtree: HierMap, filter: Option<Expr>, src: Source)
    requires src.Base? && HasScope(p, subtree) && !CanBeScoped(cat, p, subtree, src.name)
    ensures ScopeTable(ScopeOf(cat, p, subtree), filter, src)
         == Err(if p.geoCol != "" && p.geoVals != [] && !Offers(cat, src.name, p.geoCol) then GeoNotEnforceable(src.name)
                else HierNotEnforceable(src.name))
  {
    OffersIs(cat, src.name, p.geoCol);
    UsableSomewhere(cat, p, subtree, src.name, src.AliasOrName());
    HierNotEmpty(cat, p, subtree);
  }

  /** A restricted user without any scope is refused before any table is looked at. */
  lemma NoScopeRefusal(cat: Catalog, p: Profile, subtree: HierMap, t: Tree)
    requires Restricted(p)
    ensures ScopeTree(cat, p, subtree, t) == Err(NoScope) <==> !HasScope(p, subtree)
  {
    HierNotEmpty(cat, p, subtree);
    if HasScope(p, subtree) {
      OnlyTableRefusals(ScopeOf(cat, p, subtree), t.nodes, |t.nodes|);
    }
  }

  lemma {:induction false} OnlyTableRefusals(s: Scope, nodes: seq<Node>, k: nat)
    requires k <= |nodes|
    ensures ScopeNodes(s, nodes, k) != Err(NoScope)
  {
    if k > 0 {
      OnlyTableRefusals(s, nodes, k - 1);
      var before := ScopeNodes(s, nodes, k - 1);
      if before.Ok? && before.value[k - 1].Select? {
        var n := before.value[k - 1];
        OnlyTableRefusalsIn(s, n.filter, n.from, |n.from|);
      }
    }
  }

  lemma {:induction false} OnlyTableRefusalsIn(s: Scope, filter: Option<Expr>, from: seq<FromItem>, k: nat)
    requires k <= |from|
    ensures ScopeFrom(s, filter, from, k) != Err(NoScope)
  {
    if k > 0 {
      OnlyTableRefusalsIn(s, filter, from, k - 1);
    }
  }

  lemma {:induction false} FromScoped(cat: Catalog, p: Profile, subtree: HierMap, filter: Option<Expr>, from: seq<FromItem>, k: nat)
    requires k <= |from| && HasScope(p, subtree)
    ensures ScopeFrom(ScopeOf(cat, p, subtree), filter, from, k).Ok? <==>
      forall j :: 0 <= j < k ==> ItemCanBeScoped(cat, p, subtree, from[j])
  {
    if k > 0 {
      FromScoped(cat, p, subtree, filter, from, k - 1);
      var before, src := ScopeFrom(ScopeOf(cat, p, subtree), filter, from, k - 1), from[k - 1].source;
      if before.Ok? && src.Base? {
        TableScoped(cat, p, subtree, before.value, src);
      }
    }
  }

  /** A restricted user's statement is refused exactly when the user has no scope, or some table that is to be scoped cannot be
      filtered by a part of it. */
  lemma ScopedExactlyWhen(cat: Catalog, p: Profile, subtree: HierMap, t: Tree)
    requires Restricted(p)
    ensures ScopeTree(cat, p, subtree, t).Ok? <==> HasScope(p, subtree) && AllCanBeScoped(cat, p, subtree, t)
  {
    var s := ScopeOf(cat, p, subtree);
    HierNotEmpty(cat, p, subtree);
    if HasScope(p, subtree) {
      ScopeNodesEach(s, t.nodes, |t.nodes|);
      forall i | 0 <= i < |t.nodes| && t.nodes[i].Select?
        ensures ScopeNode(s, t.nodes[i]).Ok? <==>
          forall j :: 0 <= j < |t.nodes[i].from| ==> ItemCanBeScoped(cat, p, subtree, t.nodes[i].from[j])
      {
        FromScoped(cat, p, subtree, t.nodes[i].filter, t.nodes[i].from, |t.nodes[i].from|);
      }
    }
  }

  /** A VP, or a user of level 100, gets the statement back as it is. */
  lemma UnrestrictedUnscoped(cat: Catalog, p: Profile, subtree: HierMap, t: Tree)
    requires !Restricted(p)
    ensures ScopeTree(cat, p, subtree, t) == Ok(t)
  {
  }

  /** SELECT * FROM `name`, with or without a WHERE. */
  function RowsOf(name: string, filter: Option<Expr>): Tree {
    Tree([Select(None, [FromItem(Cross, Base("", name, ""), None)], filter, 0, [], None, 0, {})], [], [], [])
  }

  lemma {:induction false} OnlyOwnPart(s: Scope, alias: string, columns: set<string>, level: int, code: string, k: nat)
    requires k <= |LEVELS| && s.hier == map[level := {code}] && IsLevel(level) && s.Usable(columns, level)
    ensures s.HierParts(alias, columns, k)
         == if exists j :: 0 <= j < k && LEVELS[j] == level then [Compare("=", Field(alias, CodeColumn(level)), Built(code))] else []
  {
    if k > 0 {
      OnlyOwnPart(s, alias, columns, level, code, k - 1);
      LevelColumnIs(level);
      OneCode(code);
      assert forall j :: 0 <= j < k - 1 ==> LEVELS[j] != LEVELS[k - 1];
    }
  }

  lemma OneCode(code: string)
    ensures SortedCodes({code}) == [code]
  {
  }

  lemma OwnHier(p: Profile, level: int)
    requires p.sfLevel == Some(level) && p.sfCode != ""
    ensures EffectiveHierMap(p, map[]) == map[level := {p.sfCode}]
  {
    var m := EffectiveHierMap(p, map[]);
    forall l ensures LevelCodes(p, map[], l) == if l == level then {p.sfCode} else {} {
    }
    assert level in m && m[level] == {p.sfCode};
    assert forall l :: l in m ==> l == level;
  }

  lemma OwnPredicate(cat: Catalog, p: Profile, level: int, name: string)
    requires p.sfLevel == Some(level) && IsLevel(level) && p.sfCode != "" && (p.geoCol == "" || p.geoVals == []) && name in cat.facts
    ensures ScopeOf(cat, p, map[]).TablePredicate(name, name) == Some(Compare("=", Field(name, CodeColumn(level)), Built(p.sfCode)))
  {
    var s, columns := ScopeOf(cat, p, map[]), TableColumns(cat, name);
    OwnHier(p, level);
    LevelColumnIs(level);
    OffersIs(cat, name, CodeColumn(level));
    assert IsHierColumnOf(level / 100, CodeColumn(level)) && IsHierColumn(CodeColumn(level));
    UsableLevels(s, columns, level);
    OnlyOwnPart(s, name, columns, level, p.sfCode, |LEVELS|);
  }

  /** A user with a code at level N00, nobody below and no geo scope: a fact table is filtered on `sales_hierN_code`. */
  lemma OwnCodeFilters(cat: Catalog, p: Profile, level: int, name: string)
    requires Restricted(p) && p.sfLevel == Some(level) && IsLevel(level) && p.sfCode != "" && (p.geoCol == "" || p.geoVals == [])
    requires name in cat.facts && IsScopedTable(cat, name)
    ensures ScopeTree(cat, p, map[], RowsOf(name, None))
         == Ok(RowsOf(name, Some(Compare("=", Field(name, "sales_hier" + Decimal(level / 100) + "_code"), Built(p.sfCode)))))
  {
    var s := ScopeOf(cat, p, map[]);
    OwnHier(p, level);
    OwnPredicate(cat, p, level, name);
    var filter := Some(Compare("=", Field(name, CodeColumn(level)), Built(p.sfCode)));
    UsableSomewhere(cat, p, map[], name, name);
    var n := RowsOf(name, None).nodes[0];
    assert ScopeFrom(s, None, n.from, 0) == Ok(None) && ScopeFrom(s, None, n.from, 1) == Ok(filter);
    var nodes := RowsOf(name, None).nodes;
    assert ScopeNodes(s, nodes, 0) == Ok(nodes) && ScopeNode(s, nodes[0]) == Ok(RowsOf(name, filter).nodes[0]);
    assert nodes[0 := RowsOf(name, filter).nodes[0]] == RowsOf(name, filter).nodes;
  }

  /** The level in the profile is the one the hierarchy table gives the code. */
  ghost predicate LevelMatches(rows: seq<HierRow>, p: Profile) {
    forall r :: r in rows && r.code == p.sfCode ==> r.level == p.sfLevel
  }

  lemma OwnOrBelowGrows(rows: seq<HierRow>, manager: Profile, user: Profile, level: int, code: string)
    requires manager.HasOwnCode() && user.HasOwnCode() && LevelMatches(rows, manager) && LevelMatches(rows, user)
    requires user.sfCode != manager.sfCode && Reachable(rows, manager.sfCode, user.sfCode) && OwnOrBelow(rows, user, user.sfCode, level, code)
    ensures OwnOrBelow(rows, manager, manager.sfCode, level, code)
  {
    var m, u := manager.sfCode, user.sfCode;
    var p :| IsPath(rows, p) && p[0] == m && p[|p| - 1] == u;
    assert Edge(rows, p[|p| - 2], p[|p| - 2 + 1]);
    var r :| r in rows && r.code == u;
    assert HasLevel(rows, u, user.sfLevel.value);
    if code != u {
      ReachTransitive(rows, m, u, code);
    }
  }

  /** With equal geo scope, a manager sees every row that anyone below the manager sees, cycles in the hierarchy included. */
  lemma ManagerSeesSubordinates(w: World, cat: Catalog, rows: seq<HierRow>, manager: Profile, below: HierMap,
                                user: Profile, below': HierMap, name: string, cols: seq<string>, row: Row)
    requires manager.HasOwnCode() && user.HasOwnCode()
    requires manager.geoCol == user.geoCol && manager.geoVals == user.geoVals
    requires IsSubtree(rows, manager.sfCode, below) && IsSubtree(rows, user.sfCode, below')
    requires LevelIsFunctionOfCode(rows) && LevelMatches(rows, manager) && LevelMatches(rows, user)
    requires user.sfCode != manager.sfCode && Reachable(rows, manager.sfCode, user.sfCode) && Visible(w, ScopeOf(cat, user, below'), name, cols, row)
    ensures Visible(w, ScopeOf(cat, manager, below), name, cols, row)
  {
    VisibleIff(w, cat, user, user.sfCode, rows, below', name, cols, row);
    VisibleIff(w, cat, manager, manager.sfCode, rows, below, name, cols, row);
    assert OwnOrBelow(rows, user, user.sfCode, user.sfLevel.value, user.sfCode);
    var level, code :| CarriesCode(w, cat, name, cols, row, level, code) && OwnOrBelow(rows, user, user.sfCode, level, code);
    OwnOrBelowGrows(rows, manager, user, level, code);
  }

  /** With this subtree, the user sees exactly the rows that the hierarchy table `rows` entitles the user to. */
  ghost predicate SeesAsOf(cat: Catalog, p: Profile, subtree: HierMap, rows: seq<HierRow>) {
    forall w, name, cols, row :: Visible(w, ScopeOf(cat, p, subtree), name, cols, row) <==> MaySee(w, cat, p, Strip(p.sfCode), rows, name, cols, row)
  }

  /** If levels are consistent, the user of a recent subtree sees what the table of less than ten minutes ago says. */
  lemma SeesRecent(cat: Catalog, p: Profile, subtree: HierMap, rowsAt: int -> seq<HierRow>, now: int)
    requires RecentSubtree(rowsAt, now, Strip(p.sfCode), subtree)
    ensures exists t :: now - 600_000 < t <= now && (LevelIsFunctionOfCode(rowsAt(t)) ==> SeesAsOf(cat, p, subtree, rowsAt(t)))
  {
    var t :| now - 600_000 < t <= now && IsSubtree(rowsAt(t), Strip(p.sfCode), subtree);
    if LevelIsFunctionOfCode(rowsAt(t)) {
      forall w, name, cols, row
        ensures Visible(w, ScopeOf(cat, p, subtree), name, cols, row) <==> MaySee(w, cat, p, Strip(p.sfCode), rowsAt(t), name, cols, row)
      {
        VisibleIff(w, cat, p, Strip(p.sfCode), rowsAt(t), subtree, name, cols, row);
      }
    }
  }
}
