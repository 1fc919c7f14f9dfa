/** The guard behind the fixer: `_check_and_execute` of app/chat/pipeline.py calls the two in a row. */
module Verdicts {
  import opened Wrappers
  import opened Relational
  import opened Sql
  import opened Injector
  import opened Guard
  import opened Fixer

  /** Some column of the first statement is requalified. */
  predicate Rewrites(cat: Catalog, t: Tree) {
    AnyRewritten(cat, AliasMapOf(t), PresentIn(t), t.cols)
  }

  lemma UnrewrittenStays(cat: Catalog, t: Tree)
    requires !Rewrites(cat, t)
    ensures FixTree(cat, t) == t
  {
    assert FixTree(cat, t).cols == t.cols;
  }

  /**
   * Fixed text passes the guard exactly when it passes unfixed, or when it has several statements, the first would pass alone,
   * and the fixer rewrites one of its columns. What passes is the first statement.
   */
  lemma FixedVerdict(cat: Catalog, sql: SqlText)
    ensures AssertSafe(cat, FixText(cat, sql)).Ok?
      <==> AssertSafe(cat, sql).Ok? || (sql.Parsed? && sql.rest != [] && Rewrites(cat, sql.first) && AssertSafe(cat, Parsed(sql.first, [])).Ok?)
    ensures AssertSafe(cat, FixText(cat, sql)).Ok? ==> AssertSafe(cat, FixText(cat, sql)).value == FixTree(cat, sql.first)
  {
    if sql.Parsed? {
      var t := sql.first;
      VerdictIgnoresLeaves(cat, t, FixTree(cat, t).cols, t.lits);
      if !Rewrites(cat, t) {
        UnrewrittenStays(cat, t);
      }
    }
  }

  const TWO_TABLES: Catalog := Catalog({"s", "p"}, {}, map[], {}, map["x" := "s"], map[])

  /** SELECT p.x FROM s, p */
  const WRONG_QUALIFIER: Tree :=
    Tree([Select(Some([Item("x", Col(0))]), [FromItem(Cross, Base("", "s", ""), None), FromItem(Cross, Base("", "p", ""), None)],
                 None, 0, [], None, 0, {})],
         [Column("p", "x")], [], [])

  lemma WrongQualifierAliases(m: AliasMap)
    requires m == AliasMapOf(WRONG_QUALIFIER)
    ensures m == [("s", "s"), ("p", "p")] && "s" in PresentIn(WRONG_QUALIFIER)
  {
    var s, p := Base("", "s", ""), Base("", "p", "");
    var nodes := WRONG_QUALIFIER.nodes;
    var from := nodes[0].from;
    assert from[1..][1..] == [] && FromTables(from[1..]) == [p] && FromTables(from) == [s, p];
    assert TablesUpTo(nodes, 0) == [] && TablesUpTo(nodes, 1) == [s, p];
    assert AliasesOf([s, p], 0) == [] && AliasesOf([s, p], 1) == [("s", "s")];
    assert AliasesOf([s, p], 2) == Put([("s", "s")], "p", "p") && [("s", "s")][1..] == [];
    assert NameOf([s, p][0]) == "s";
  }

  lemma WrongQualifierRewritten(m: AliasMap)
    requires m == AliasMapOf(WRONG_QUALIFIER)
    ensures NewQualifier(TWO_TABLES, m, PresentIn(WRONG_QUALIFIER), WRONG_QUALIFIER.cols[0]) == Some("s")
  {
    WrongQualifierAliases(m);
    assert m[1..] == [("p", "p")] && m[1..][1..] == [];
    assert Get(m, "p") == Some("p");
    assert QualifierFor("s", [], Some("s")) == Some("s") && QualifierFor("s", m[1..], Some("s")) == Some("s");
  }

  /** A statement with a wrong qualifier, followed by anything: refused as it is, let through once fixed. */
  lemma LaterStatementsDropped(later: Tree)
    ensures AssertSafe(TWO_TABLES, Parsed(WRONG_QUALIFIER, [later])) == Err(StatementCount(2))
    ensures AssertSafe(TWO_TABLES, FixText(TWO_TABLES, Parsed(WRONG_QUALIFIER, [later]))).Ok?
  {
    var cat, t := TWO_TABLES, WRONG_QUALIFIER;
    WrongQualifierRewritten(AliasMapOf(t));
    FixedVerdict(cat, Parsed(t, [later]));
    var from := t.nodes[0].from;
    assert CheckFrom(cat, {}, from[1..][1..]).None? && CheckFrom(cat, {}, from[1..]).None? && CheckFrom(cat, {}, from).None?;
    assert t.nodes[1..] == [] && CteNames(t) == {};
    assert ItemsOf(t.nodes[0]) == [Item("x", Col(0))] && BadItems([Item("x", Col(0))]).None?;
    assert CheckNode(cat, {}, t.nodes[0]).None?;
  }
}
