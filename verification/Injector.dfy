/** Row scoping by AST rewriting: app/rbac/injector.py and app/rbac/profiles.py. */
module Injector {
  import opened Wrappers
  import opened Sql
  import opened Profiles
  import opened SortedStrings

  // ---- The schema catalogue, a parameter ----

  /** `whitelist` is the table whitelist, `schema` the columns the catalogue lists for each table. The last three are
      the column fixer's maps. */
  datatype Catalog = Catalog(whitelist: set<string>, facts: set<string>, schema: map<string, set<string>>,
                             ambiguous: set<string>, columnTable: map<string, string>, aliasTable: map<string, string>)

  const UNSCOPED_REFERENCE_TABLES: set<string> := {"sales_force_hier_level_t"}

  /** The denormalised geo and sales columns every fact table carries. */
  const HIER_FAMILY: set<string> :=
    set d, n, x | d in {"geo", "sales"} && n in {"1", "2", "3", "4", "5", "6", "7", "8", "9", "10"}
      && x in {"name", "code"} :: d + "_hier" + n + "_" + x

  /** The levels that have a filter column, in increasing order. */
  const LEVELS: seq<int> := [100, 200, 300, 400, 500, 600]

  function LevelColumn(level: int): Option<string> {
    if level == 100 then Some("sales_hier1_code")
    else if level == 200 then Some("sales_hier2_code")
    else if level == 300 then Some("sales_hier3_code")
    else if level == 400 then Some("sales_hier4_code")
    else if level == 500 then Some("sales_hier5_code")
    else if level == 600 then Some("sales_hier6_code")
    else None
  }

  function TableColumns(cat: Catalog, name: string): set<string> {
    var listed := if name in cat.schema then cat.schema[name] else {};
    if name in cat.facts then listed + HIER_FAMILY else listed
  }

  predicate SupportsColumn(columns: set<string>, column: string) {
    column in columns
    || (|column| >= 5 && column[|column| - 5..] == "_code" && column[..|column| - 5] + "_name" in columns)
  }

  // ---- Predicates ----

  function Literals(values: seq<string>): Exprs {
    if values == [] then Nil else Cons(Built(values[0]), Literals(values[1..]))
  }

  function EqOrIn(alias: string, column: string, values: seq<string>): Expr {
    if |values| == 1 then Compare("=", Field(alias, column), Built(values[0]))
    else In(Field(alias, column), Literals(values))
  }

  /** The scope a restricted user's statement is rewritten with. */
  datatype Scope = Scope(cat: Catalog, p: Profile, hier: HierMap) {
    predicate Scoped(name: string) {
      name in cat.whitelist && name !in UNSCOPED_REFERENCE_TABLES
    }

    predicate Usable(columns: set<string>, level: int) {
      level in hier && LevelColumn(level).Some? && SupportsColumn(columns, LevelColumn(level).value)
    }

    function HierParts(alias: string, columns: set<string>, k: nat): seq<Expr>
      requires k <= |LEVELS|
    {
      if k == 0 then [] else
        HierParts(alias, columns, k - 1)
        + (if Usable(columns, LEVELS[k - 1])
           then [EqOrIn(alias, LevelColumn(LEVELS[k - 1]).value, SortedCodes(hier[LEVELS[k - 1]]))] else [])
    }

    function GeoPredicate(alias: string, columns: set<string>): Option<Expr> {
      if p.GeoAvailable() && SupportsColumn(columns, p.geoCol) then Some(EqOrIn(alias, p.geoCol, p.geoVals)) else None
    }

    function HierPredicate(alias: string, columns: set<string>): Option<Expr> {
      var parts := HierParts(alias, columns, |LEVELS|);
      if parts == [] then None else Some(OrAll(parts))
    }

    function TablePredicate(name: string, alias: string): Option<Expr> {
      var columns := TableColumns(cat, name);
      match (GeoPredicate(alias, columns), HierPredicate(alias, columns))
      case (None, None) => None
      case (Some(g), None) => Some(g)
      case (None, Some(h)) => Some(h)
      case (Some(g), Some(h)) => Some(And(g, h))
    }
  }

  function OrAll(parts: seq<Expr>): Expr
    requires parts != []
  {
    if |parts| == 1 then parts[0] else Or(OrAll(parts[..|parts| - 1]), parts[|parts| - 1])
  }

  // ---- The rewriting ----

  datatype RbacError =
    NoScope | GeoNotEnforceable(table: string) | HierNotEnforceable(table: string) | NoPredicate(table: string)

  /** `select.where(p, copy=False)`. */
  function AddWhere(filter: Option<Expr>, p: Expr): Option<Expr> {
    match filter
    case None => Some(p)
    case Some(f) => Some(And(f, p))
  }

  function ScopeTable(s: Scope, filter: Option<Expr>, src: Source): Result<Option<Expr>, RbacError>
    requires src.Base?
  {
    var columns := TableColumns(s.cat, src.name);
    var alias := src.AliasOrName();
    if s.p.GeoAvailable() && !SupportsColumn(columns, s.p.geoCol) then Err(GeoNotEnforceable(src.name))
    else if s.hier != map[] && s.HierPredicate(alias, columns).None? then Err(HierNotEnforceable(src.name))
    else match s.TablePredicate(src.name, alias)
         case None => Err(NoPredicate(src.name))
         case Some(p) => Ok(AddWhere(filter, p))
  }

  /** Scoping the first `k` FROM items of one SELECT. */
  function ScopeFrom(s: Scope, filter: Option<Expr>, from: seq<FromItem>, k: nat): Result<Option<Expr>, RbacError>
    requires k <= |from|
  {
    if k == 0 then Ok(filter) else
      var before := ScopeFrom(s, filter, from, k - 1);
      var src := from[k - 1].source;
      if before.Err? || src.Derived? || !s.Scoped(src.name) then before
      else ScopeTable(s, before.value, src)
  }

  function ScopeNode(s: Scope, n: Node): Result<Node, RbacError> {
    if !n.Select? then Ok(n) else
      match ScopeFrom(s, n.filter, n.from, |n.from|)
      case Err(e) => Err(e)
      case Ok(f) => Ok(n.(filter := f))
  }

  /** Scoping the first `k` nodes in place. */
  function ScopeNodes(s: Scope, nodes: seq<Node>, k: nat): (r: Result<seq<Node>, RbacError>)
    requires k <= |nodes|
    ensures r.Ok? ==> |r.value| == |nodes|
  {
    if k == 0 then Ok(nodes) else
      match ScopeNodes(s, nodes, k - 1)
      case Err(e) => Err(e)
      case Ok(ns) =>
        match ScopeNode(s, ns[k - 1])
        case Err(e) => Err(e)
        case Ok(n) => Ok(ns[k - 1 := n])
  }

  function ScopeTree(cat: Catalog, p: Profile, subtree: HierMap, t: Tree): Result<Tree, RbacError> {
    var s := Scope(cat, p, EffectiveHierMap(p, subtree));
    if p.IsUnrestricted() then Ok(t)
    else if !p.GeoAvailable() && s.hier == map[] then Err(NoScope)
    else match ScopeNodes(s, t.nodes, |t.nodes|)
         case Err(e) => Err(e)
         case Ok(ns) => Ok(t.(nodes := ns))
  }

  /** `_scope_table`: the injected predicate of one table of the SELECT at `i`. */
  method ScopeTableInPlace(s: Scope, a: Ast, i: nat, src: Source) returns (error: Option<RbacError>)
    requires i < a.nodes.Length && a.nodes[i].Select? && src.Base?
    modifies a.nodes
    ensures error == match ScopeTable(s, old(a.nodes[i].filter), src) case Ok(_) => None case Err(e) => Some(e)
    ensures error.None? ==>
      a.nodes[..] == old(a.nodes[..])[i := old(a.nodes[i]).(filter := ScopeTable(s, old(a.nodes[i].filter), src).value)]
    ensures error.Some? ==> a.nodes[..] == old(a.nodes[..])
  {
    var columns := TableColumns(s.cat, src.name);
    var alias := src.AliasOrName();
    if s.p.GeoAvailable() && !SupportsColumn(columns, s.p.geoCol) {
      return Some(GeoNotEnforceable(src.name));
    }
    if s.hier != map[] && s.HierPredicate(alias, columns).None? {
      return Some(HierNotEnforceable(src.name));
    }
    var predicate_ := s.TablePredicate(src.name, alias);
    if predicate_.None? {
      return Some(NoPredicate(src.name));
    }
    a.nodes[i] := a.nodes[i].(filter := AddWhere(a.nodes[i].filter, predicate_.value));
    return None;
  }

  /** The inner loop of `apply_scope`: every directly referenced table of the SELECT at `i`. */
  method ScopeSelectInPlace(s: Scope, a: Ast, i: nat, from: seq<FromItem>) returns (error: Option<RbacError>)
    requires i < a.nodes.Length && a.nodes[i].Select?
    modifies a.nodes
    ensures error == match ScopeFrom(s, old(a.nodes[i].filter), from, |from|) case Ok(_) => None case Err(e) => Some(e)
    ensures error.None? ==>
      a.nodes[..] == old(a.nodes[..])[i := old(a.nodes[i]).(filter := ScopeFrom(s, old(a.nodes[i].filter), from, |from|).value)]
  {
    var j := 0;
    ghost var nodes, node := a.nodes[..], a.nodes[i];
    ghost var filter := node.filter;
    ghost var now := filter;
    while j < |from|
      invariant j <= |from|
      invariant ScopeFrom(s, filter, from, j) == Ok(now)
      invariant a.nodes[..] == nodes[i := node.(filter := now)]
    {
      var src := from[j].source;
      ScopeFromStep(s, filter, from, j, now);
      if src.Base? && src.name in s.cat.whitelist && src.name !in UNSCOPED_REFERENCE_TABLES {
        assert a.nodes[i] == a.nodes[..][i] == node.(filter := now);
        error := ScopeTableInPlace(s, a, i, src);
        if error.Some? {
          ScopeFailsEarly(s, filter, from, j + 1);
          return;
        }
        UpdateTwice(nodes, i, node.(filter := now), node.(filter := ScopeTable(s, now, src).value));
        now := ScopeTable(s, now, src).value;
      }
      j := j + 1;
    }
    return None;
  }

  lemma ScopeFromStep(s: Scope, filter: Option<Expr>, from: seq<FromItem>, j: nat, now: Option<Expr>)
    requires j < |from| && ScopeFrom(s, filter, from, j) == Ok(now)
    ensures var src := from[j].source;
      ScopeFrom(s, filter, from, j + 1) == if src.Base? && s.Scoped(src.name) then ScopeTable(s, now, src) else Ok(now)
  {
  }

  lemma UpdateTwice(nodes: seq<Node>, i: nat, n: Node, m: Node)
    requires i < |nodes|
    ensures nodes[i := n][i := m] == nodes[i := m]
  {
  }

  method ScopeNodeInPlace(s: Scope, a: Ast, i: nat) returns (error: Option<RbacError>)
    requires i < a.nodes.Length
    modifies a.nodes
    ensures error == match ScopeNode(s, old(a.nodes[i])) case Ok(_) => None case Err(e) => Some(e)
    ensures error.None? ==> a.nodes[..] == old(a.nodes[..])[i := ScopeNode(s, old(a.nodes[i])).value]
  {
    if !a.nodes[i].Select? {
      return None;
    }
    error := ScopeSelectInPlace(s, a, i, a.nodes[i].from);
  }

  /** `apply_scope`: walks a private copy of the tree and rewrites its SELECT nodes in place. */
  method ApplyScope(cat: Catalog, t: Tree, p: Profile, subtree: HierMap) returns (r: Result<Tree, RbacError>)
    ensures r == ScopeTree(cat, p, subtree, t)
  {
    var a := new Ast.Parse(t);
    if p.IsUnrestricted() {
      return Ok(a.View());
    }
    var hier := MergeHierMap(p, subtree);
    EffectiveHierMapIs(p, subtree, hier);
    if !p.GeoAvailable() && hier == map[] {
      return Err(NoScope);
    }
    var s := Scope(cat, p, hier);
    var i := 0;
    while i < a.nodes.Length
      invariant i <= a.nodes.Length
      invariant ScopeNodes(s, t.nodes, i) == Ok(a.nodes[..])
      invariant a.View() == t.(nodes := a.nodes[..])
    {
      var error := ScopeNodeInPlace(s, a, i);
      if error.Some? {
        ScopeNodesFailEarly(s, t.nodes, i + 1);
        return Err(error.value);
      }
      i := i + 1;
    }
    return Ok(a.View());
  }

  lemma {:induction false} ScopeFailsEarly(s: Scope, filter: Option<Expr>, from: seq<FromItem>, k: nat)
    requires k <= |from| && ScopeFrom(s, filter, from, k).Err?
    ensures ScopeFrom(s, filter, from, |from|) == ScopeFrom(s, filter, from, k)
    decreases |from| - k
  {
    if k < |from| {
      ScopeFailsEarly(s, filter, from, k + 1);
    }
  }

  lemma {:induction false} ScopeNodesFailEarly(s: Scope, nodes: seq<Node>, k: nat)
    requires k <= |nodes| && ScopeNodes(s, nodes, k).Err?
    ensures ScopeNodes(s, nodes, |nodes|) == ScopeNodes(s, nodes, k)
    decreases |nodes| - k
  {
    if k < |nodes| {
      ScopeNodesFailEarly(s, nodes, k + 1);
    }
  }

  /** A statement can be scoped exactly when each of its nodes can; each node is then scoped on its own. */
  lemma {:induction false} ScopeNodesEach(s: Scope, nodes: seq<Node>, k: nat)
    requires k <= |nodes|
    ensures ScopeNodes(s, nodes, k).Ok? <==> forall i :: 0 <= i < k ==> ScopeNode(s, nodes[i]).Ok?
    ensures ScopeNodes(s, nodes, k).Ok? ==>
      forall i :: 0 <= i < |nodes| ==>
        ScopeNodes(s, nodes, k).value[i] == if i < k then ScopeNode(s, nodes[i]).value else nodes[i]
  {
    if k > 0 {
      ScopeNodesEach(s, nodes, k - 1);
    }
  }
}
