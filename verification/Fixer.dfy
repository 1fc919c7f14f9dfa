/** Column/alias reconciliation: app/sqlsafety/fixer.py. */
module Fixer {
  import opened Wrappers
  import opened Sql
  import opened Injector

  /** A Python dict of strings in insertion order; an update keeps the key's place. */
  type AliasMap = seq<(string, string)>

  function Get(m: AliasMap, key: string): Option<string> {
    if m == [] then None else if m[0].0 == key then Some(m[0].1) else Get(m[1..], key)
  }

  function Put(m: AliasMap, key: string, value: string): AliasMap {
    if m == [] then [(key, value)]
    else if m[0].0 == key then [(key, value)] + m[1..]
    else [m[0]] + Put(m[1..], key, value)
  }

  predicate DistinctKeys(m: AliasMap) {
    forall a, b :: 0 <= a < b < |m| ==> m[a].0 != m[b].0
  }

  /** `tree.find_all(exp.Table)`. */
  function FromTables(from: seq<FromItem>): seq<Source> {
    if from == [] then [] else (if from[0].source.Base? then [from[0].source] else []) + FromTables(from[1..])
  }

  function TablesUpTo(nodes: seq<Node>, k: nat): seq<Source>
    requires k <= |nodes|
  {
    if k == 0 then [] else
      TablesUpTo(nodes, k - 1) + (if nodes[k - 1].Select? then FromTables(nodes[k - 1].from) else [])
  }

  function AliasesOf(tables: seq<Source>, k: nat): AliasMap
    requires k <= |tables|
  {
    if k == 0 then [] else Put(AliasesOf(tables, k - 1), tables[k - 1].AliasOrName(), NameOf(tables[k - 1]))
  }

  function NameOf(s: Source): string {
    if s.Base? then s.name else ""
  }

  function Present(tables: seq<Source>, k: nat): set<string>
    requires k <= |tables|
  {
    set j | 0 <= j < k :: NameOf(tables[j])
  }

  /** `_qualifier_for`: the first explicit alias of the table, else its bare name, else None. */
  function QualifierFor(table: string, m: AliasMap, match_: Option<string>): Option<string> {
    if m == [] then match_
    else if m[0].1 != table then QualifierFor(table, m[1..], match_)
    else if m[0].0 != table then Some(m[0].0)
    else QualifierFor(table, m[1..], Some(m[0].0))
  }

  /** `query_alias_map.get(q) or ALIAS_TABLE_MAP.get(q)`. */
  function TableOf(cat: Catalog, m: AliasMap, qualifier: string): Option<string> {
    var own := Get(m, qualifier);
    if own.Some? && own.value != "" then own
    else if qualifier in cat.aliasTable then Some(cat.aliasTable[qualifier])
    else None
  }

  /** The table that alone owns a column, if the fixer may act on it. */
  function Owner(cat: Catalog, c: Column): Option<string> {
    if c.qualifier == "" || c.name == "" || c.name in cat.ambiguous || c.name !in cat.columnTable then None
    else Some(cat.columnTable[c.name])
  }

  /** The new qualifier of a column, if it is to be rewritten. */
  function NewQualifier(cat: Catalog, m: AliasMap, present: set<string>, c: Column): Option<string> {
    var owner, current := Owner(cat, c), TableOf(cat, m, c.qualifier);
    if owner.None? || current.None? || current == owner || owner.value !in present then None
    else QualifierFor(owner.value, m, None)
  }

  function FixColumn(cat: Catalog, m: AliasMap, present: set<string>, c: Column): Column {
    var q := NewQualifier(cat, m, present, c);
    if q.Some? then Column(q.value, c.name) else c
  }

  function AliasMapOf(t: Tree): AliasMap {
    var tables := TablesUpTo(t.nodes, |t.nodes|);
    AliasesOf(tables, |tables|)
  }

  function PresentIn(t: Tree): set<string> {
    var tables := TablesUpTo(t.nodes, |t.nodes|);
    Present(tables, |tables|)
  }

  function FixColumns(cat: Catalog, m: AliasMap, present: set<string>, cols: seq<Column>): (r: seq<Column>)
    ensures |r| == |cols| && forall k :: 0 <= k < |cols| ==> r[k] == FixColumn(cat, m, present, cols[k])
  {
    if cols == [] then [] else [FixColumn(cat, m, present, cols[0])] + FixColumns(cat, m, present, cols[1..])
  }

  predicate AnyRewritten(cat: Catalog, m: AliasMap, present: set<string>, cols: seq<Column>) {
    exists k :: 0 <= k < |cols| && NewQualifier(cat, m, present, cols[k]).Some?
  }

  function FixTree(cat: Catalog, t: Tree): Tree {
    t.(cols := FixColumns(cat, AliasMapOf(t), PresentIn(t), t.cols))
  }

  /** On text: text that does not parse, or in which nothing is rewritten, comes back unchanged. Otherwise the rewritten first
      statement comes back, without any later one. */
  function FixText(cat: Catalog, sql: SqlText): SqlText {
    match sql
    case Unparseable(_) => sql
    case Parsed(t, _) =>
      if AnyRewritten(cat, AliasMapOf(t), PresentIn(t), t.cols) then Parsed(FixTree(cat, t), []) else sql
  }

  /** The first loop of `fix_column_aliases`: the names the statement binds, and its tables. */
  method CollectTables(a: Ast) returns (m: AliasMap, present: set<string>)
    ensures m == AliasMapOf(a.View()) && present == PresentIn(a.View())
  {
    var tables := TablesUpTo(a.nodes[..], a.nodes.Length);
    m, present := [], {};
    var i := 0;
    while i < |tables|
      invariant i <= |tables| && m == AliasesOf(tables, i) && present == Present(tables, i)
    {
      present := present + {NameOf(tables[i])};
      m := Put(m, tables[i].AliasOrName(), NameOf(tables[i]));
      i := i + 1;
    }
  }

  /** The two loops of `fix_column_aliases`; returns its `changed` flag. */
  method FixInPlace(cat: Catalog, a: Ast) returns (changed: bool)
    modifies a.cols
    ensures a.View() == FixTree(cat, old(a.View()))
    ensures changed == AnyRewritten(cat, AliasMapOf(old(a.View())), PresentIn(old(a.View())), old(a.cols[..]))
  {
    ghost var cols := a.cols[..];
    var m, present := CollectTables(a);
    changed := false;
    var k := 0;
    while k < a.cols.Length
      invariant k <= a.cols.Length
      invariant forall j :: 0 <= j < a.cols.Length ==> a.cols[j] == if j < k then FixColumn(cat, m, present, cols[j]) else cols[j]
      invariant changed == exists j :: 0 <= j < k && NewQualifier(cat, m, present, cols[j]).Some?
    {
      var q := NewQualifier(cat, m, present, a.cols[k]);
      if q.Some? {
        a.cols[k] := Column(q.value, a.cols[k].name);
        changed := true;
      }
      k := k + 1;
    }
    assert a.cols[..] == FixColumns(cat, m, present, cols);
  }

  /** `fix_column_aliases`. */
  method FixColumnAliases(cat: Catalog, sql: SqlText) returns (r: SqlText)
    ensures r == FixText(cat, sql)
  {
    if sql.Unparseable? {
      return sql;
    }
    var a := new Ast.Parse(sql.first);
    var changed := FixInPlace(cat, a);
    return if changed then Parsed(a.View(), []) else sql;
  }

  // ---- What fixing achieves ----

  lemma {:induction false} PutDistinct(m: AliasMap, key: string, value: string)
    requires DistinctKeys(m)
    ensures DistinctKeys(Put(m, key, value))
    ensures forall p :: p in Put(m, key, value) ==> p == (key, value) || p in m
  {
    if m != [] && m[0].0 != key {
      PutDistinct(m[1..], key, value);
      var rest := Put(m[1..], key, value);
      forall b | 0 <= b < |rest| ensures rest[b].0 != m[0].0 {
        assert rest[b] in rest;
      }
    }
  }

  lemma {:induction false} AliasesDistinct(tables: seq<Source>, k: nat)
    requires k <= |tables|
    ensures DistinctKeys(AliasesOf(tables, k))
  {
    if k > 0 {
      AliasesDistinct(tables, k - 1);
      PutDistinct(AliasesOf(tables, k - 1), tables[k - 1].AliasOrName(), NameOf(tables[k - 1]));
    }
  }

  lemma {:induction false} QualifierForMeaning(table: string, m: AliasMap, match_: Option<string>)
    requires DistinctKeys(m)
    ensures var q := QualifierFor(table, m, match_); q == match_ || (q.Some? && Get(m, q.value) == Some(table))
    ensures (exists k :: 0 <= k < |m| && m[k].1 == table) ==> QualifierFor(table, m, match_).Some?
  {
    if m != [] {
      var next := if m[0].1 == table && m[0].0 == table then Some(m[0].0) else match_;
      QualifierForMeaning(table, m[1..], next);
      var q := QualifierFor(table, m, match_);
      if q.Some? && Get(m[1..], q.value) == Some(table) {
        KeyFound(m[1..], q.value);
      }
      assert forall k :: 1 <= k < |m| ==> m[k] == m[1..][k - 1];
    }
  }

  lemma {:induction false} KeyFound(m: AliasMap, key: string)
    requires Get(m, key).Some?
    ensures exists k :: 0 <= k < |m| && m[k].0 == key
  {
    if m[0].0 != key {
      KeyFound(m[1..], key);
      var k :| 0 <= k < |m[1..]| && m[1..][k].0 == key;
      assert m[k + 1].0 == key;
    }
  }

  /** Every rewritten column is qualified by a name that the statement itself binds to the table listed for the column. */
  lemma RewrittenColumnsResolve(cat: Catalog, t: Tree, k: nat)
    requires k < |t.cols| && NewQualifier(cat, AliasMapOf(t), PresentIn(t), t.cols[k]).Some?
    ensures var c := FixTree(cat, t).cols[k];
      c.name == t.cols[k].name && Get(AliasMapOf(t), c.qualifier) == Some(cat.columnTable[c.name])
  {
    var tables := TablesUpTo(t.nodes, |t.nodes|);
    AliasesDistinct(tables, |tables|);
    QualifierForMeaning(Owner(cat, t.cols[k]).value, AliasMapOf(t), None);
  }

  /** Fixing twice is fixing once. */
  lemma FixIdempotent(cat: Catalog, t: Tree)
    ensures FixTree(cat, FixTree(cat, t)) == FixTree(cat, t)
  {
    var f := FixTree(cat, t);
    var m, present := AliasMapOf(t), PresentIn(t);
    forall k | 0 <= k < |t.cols| ensures FixColumn(cat, m, present, f.cols[k]) == f.cols[k] {
      if NewQualifier(cat, m, present, t.cols[k]).Some? {
        RewrittenColumnsResolve(cat, t, k);
      }
    }
    assert FixTree(cat, f).cols == f.cols;
  }

  /** Fixing commutes with any change of literals, and never touches tables, nodes or literals. */
  lemma FixIgnoresLiterals(cat: Catalog, t: Tree, lits: seq<Leaf>)
    ensures FixTree(cat, t.(lits := lits)) == FixTree(cat, t).(lits := lits)
    ensures AnyRewritten(cat, AliasMapOf(t.(lits := lits)), PresentIn(t.(lits := lits)), t.cols)
        <==> AnyRewritten(cat, AliasMapOf(t), PresentIn(t), t.cols)
  {
  }
}
