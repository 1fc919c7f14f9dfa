/**
 The SQL fragment the backend handles, and what MySQL does with it.

 A parsed statement is a heap of nodes. SELECT and UNION nodes, column nodes and literal nodes are the ones that
 later passes rewrite in place, so each kind lives in its own table and is referred to by slot. Slots are numbered in
 the order `tree.find_all` meets the nodes; a query node therefore comes before every query nested in it, and the
 statement itself is node 0. The injector builds new columns and literals that nothing rewrites afterwards; those are
 written inline (`Built`, `Field`).
 */
module Sql {
  import opened Wrappers
  import opened Relational

  // ---- Syntax ----

  /** A literal node, or the placeholder that has replaced it. */
  datatype Leaf = StrLit(text: string) | NumLit(num: int) | Hole(name: string)

  /** A column node; the qualifier is "" for a bare column. */
  datatype Column = Column(qualifier: string, name: string)

  datatype Expr =
    | Lit(slot: nat)
    | Col(slot: nat)
    | Built(text: string)
    | Field(alias: string, column: string)
    | Call(name: string, args: Exprs)
    | Compare(op: string, l: Expr, r: Expr)
    | And(l: Expr, r: Expr)
    | Or(l: Expr, r: Expr)
    | Not(e: Expr)
    | IsNull(e: Expr)
    | In(e: Expr, list: Exprs)
    | InQuery(e: Expr, query: nat)
    | Exists(query: nat)
    | Scalar(query: nat)

  datatype Exprs = Nil | Cons(head: Expr, tail: Exprs)

  /** A base table or CTE reference (`schema` is "" unless qualified), or a derived table. */
  datatype Source = Base(schema: string, name: string, as_: string) | Derived(query: nat, as_: string) {
    function AliasOrName(): string {
      if Base? && as_ == "" then name else as_
    }
  }

  /** A FROM item. The first one is FROM itself (a cross join with nothing), the others are its joins. */
  datatype FromItem = FromItem(kind: JoinKind, source: Source, on: Option<Expr>)

  datatype Item = Item(name: string, e: Expr)

  /** The count of a LIMIT: a plain integer, or some other expression, known by an id. */
  datatype LimitCount = Plain(n: int) | Other(id: int)

  /** `marks` are the INTO and locking clauses. `keys` are the expressions of GROUP BY, HAVING and ORDER BY, and `shape` names
      what these clauses and DISTINCT do with them. */
  datatype Node =
    | Select(items: Option<seq<Item>>, from: seq<FromItem>, filter: Option<Expr>, shape: nat, keys: seq<Item>,
             limit: Option<LimitCount>, offset: nat, marks: set<string>)
    | Union(left: nat, right: nat, shape: nat, keys: seq<Item>, limit: Option<LimitCount>, offset: nat, marks: set<string>)
    | Statement(kind: string)

  function WithLimit(n: Node, limit: Option<LimitCount>): Node {
    match n
    case Select(items, from, filter, shape, keys, _, offset, marks) => Select(items, from, filter, shape, keys, limit, offset, marks)
    case Union(left, right, shape, keys, _, offset, marks) => Union(left, right, shape, keys, limit, offset, marks)
    case Statement(_) => n
  }

  datatype Cte = Cte(name: string, query: nat)

  datatype Tree = Tree(nodes: seq<Node>, cols: seq<Column>, lits: seq<Leaf>, ctes: seq<Cte>)

  /** SQL text: it either does not parse or is one or more statements. Printing is by assumption the inverse of parsing, so
      text that parses is identified with its trees. */
  datatype SqlText = Unparseable(text: string) | Parsed(first: Tree, rest: seq<Tree>)

  /** The same tree as a heap object whose nodes are overwritten in place. */
  class Ast {
    const nodes: array<Node>
    const cols: array<Column>
    const lits: array<Leaf>
    const ctes: seq<Cte>

    /** Parsing: by assumption, the inverse of printing. */
    constructor Parse(t: Tree)
      ensures fresh(nodes) && fresh(cols) && fresh(lits)
      ensures View() == t
    {
      nodes := new Node[|t.nodes|](i requires 0 <= i < |t.nodes| => t.nodes[i]);
      cols := new Column[|t.cols|](i requires 0 <= i < |t.cols| => t.cols[i]);
      lits := new Leaf[|t.lits|](i requires 0 <= i < |t.lits| => t.lits[i]);
      ctes := t.ctes;
      new;
      assert nodes[..] == t.nodes && cols[..] == t.cols && lits[..] == t.lits;
    }

    /** Printing: the text is determined by the tree. */
    function View(): Tree
      reads nodes, cols, lits
    {
      Tree(nodes[..], cols[..], lits[..], ctes)
    }
  }

  // ---- Three-valued values ----

  /** What the database decides and the model leaves open: functions, comparisons and their collation, the truth of a
      string, the clauses behind `shape`, and a LIMIT that is not a plain integer. */
  datatype World = World(call: (string, seq<Value>) -> Value, compare: (string, Value, Value) -> bool,
                         truth: string -> bool, shape: (nat, seq<Shown>) -> seq<Row>, count: int -> nat)

  /** An output row with the values of its keys. */
  datatype Shown = Shown(row: Row, keys: Row)

  predicate Truthy(w: World, v: Value) {
    match v
    case Null => false
    case Int(i) => i != 0
    case Text(s) => w.truth(s)
  }

  predicate Falsy(w: World, v: Value) {
    v != Null && !Truthy(w, v)
  }

  function OfBool(b: bool): Value {
    if b then Int(1) else Int(0)
  }

  function AndValue(w: World, a: Value, b: Value): (r: Value)
    ensures Truthy(w, r) <==> Truthy(w, a) && Truthy(w, b)
  {
    if Falsy(w, a) || Falsy(w, b) then Int(0) else if a == Null || b == Null then Null else Int(1)
  }

  function OrValue(w: World, a: Value, b: Value): (r: Value)
    ensures Truthy(w, r) <==> Truthy(w, a) || Truthy(w, b)
  {
    if Truthy(w, a) || Truthy(w, b) then Int(1) else if a == Null || b == Null then Null else Int(0)
  }

  function NotValue(w: World, a: Value): Value {
    if a == Null then Null else OfBool(!Truthy(w, a))
  }

  function CompareValue(w: World, op: string, a: Value, b: Value): Value {
    if a == Null || b == Null then Null else OfBool(w.compare(op, a, b))
  }

  /** `v IN (vs)`. */
  function InValue(w: World, v: Value, vs: seq<Value>): (r: Value)
    ensures Truthy(w, r) <==> exists k :: 0 <= k < |vs| && Truthy(w, CompareValue(w, "=", v, vs[k]))
  {
    if vs == [] then Int(0) else
      assert forall k :: 1 <= k < |vs| ==> vs[k] == vs[1..][k - 1];
      OrValue(w, CompareValue(w, "=", v, vs[0]), InValue(w, v, vs[1..]))
  }

  // ---- Environments ----

  /** Innermost binds first. */
  type Env = seq<Bind>

  function IndexOf(cols: seq<string>, name: string): (k: nat)
    ensures k <= |cols| && (k < |cols| <==> name in cols) && (k < |cols| ==> cols[k] == name)
  {
    if cols == [] then 0 else if cols[0] == name then 0 else 1 + IndexOf(cols[1..], name)
  }

  /** The cell of a named column; NULL if there is none. */
  function Cell(cols: seq<string>, row: Row, name: string): Value {
    var k := IndexOf(cols, name);
    if k < |cols| && k < |row| then row[k] else Null
  }

  function BindCell(b: Bind, name: string): Value {
    if b.row.Some? then Cell(b.cols, b.row.value, name) else Null
  }

  /** A qualified name means the innermost bind with that alias. */
  function Qualified(env: Env, alias: string, name: string): Value {
    if env == [] then Null
    else if env[0].alias == alias then BindCell(env[0], name)
    else Qualified(env[1..], alias, name)
  }

  /** A bare name means the innermost bind with that column. */
  function Bare(env: Env, name: string): Value {
    if env == [] then Null
    else if name in env[0].cols then BindCell(env[0], name)
    else Bare(env[1..], name)
  }

  function Lookup(env: Env, c: Column): Value {
    if c.qualifier == "" then Bare(env, c.name) else Qualified(env, c.qualifier, c.name)
  }

  // ---- Evaluation ----

  type Database = map<string, Relation>

  const NoRows := Relation([], [])

  datatype Ctx = Ctx(w: World, t: Tree, db: Database) {
    predicate IsSelect(i: nat) {
      i < |t.nodes| && t.nodes[i].Select?
    }
  }

  function LeafValue(l: Leaf): Value {
    match l
    case StrLit(s) => Text(s)
    case NumLit(n) => Int(n)
    case Hole(_) => Null
  }

  function Take<T>(n: int, s: seq<T>): (r: seq<T>)
    ensures r <= s && (n <= 0 ==> r == []) && (0 <= n <= |s| ==> |r| == n) && (n >= |s| ==> r == s)
  {
    if n <= 0 then [] else if n <= |s| then s[..n] else s
  }

  function Drop<T>(n: nat, s: seq<T>): seq<T> {
    if n <= |s| then s[n..] else []
  }

  /** LIMIT and OFFSET. */
  function Window(w: World, limit: Option<LimitCount>, offset: nat, rows: seq<Row>): seq<Row> {
    match limit
    case None => Drop(offset, rows)
    case Some(Plain(n)) => Take(n, Drop(offset, rows))
    case Some(Other(id)) => Take(w.count(id), Drop(offset, rows))
  }

  function EvalExpr(c: Ctx, i: nat, env: Env, e: Expr): Value
    requires i < |c.t.nodes|
    decreases |c.t.nodes| - i, 1, e
  {
    match e
    case Lit(slot) => if slot < |c.t.lits| then LeafValue(c.t.lits[slot]) else Null
    case Col(slot) => if slot < |c.t.cols| then Lookup(env, c.t.cols[slot]) else Null
    case Built(text) => Text(text)
    case Field(alias, column) => Qualified(env, alias, column)
    case Call(name, args) => c.w.call(name, EvalExprs(c, i, env, args))
    case Compare(op, l, r) => CompareValue(c.w, op, EvalExpr(c, i, env, l), EvalExpr(c, i, env, r))
    case And(l, r) => AndValue(c.w, EvalExpr(c, i, env, l), EvalExpr(c, i, env, r))
    case Or(l, r) => OrValue(c.w, EvalExpr(c, i, env, l), EvalExpr(c, i, env, r))
    case Not(a) => NotValue(c.w, EvalExpr(c, i, env, a))
    case IsNull(a) => OfBool(EvalExpr(c, i, env, a) == Null)
    case In(a, list) => InValue(c.w, EvalExpr(c, i, env, a), EvalExprs(c, i, env, list))
    case InQuery(a, q) => InValue(c.w, EvalExpr(c, i, env, a), FirstColumn(EvalSub(c, i, q, env).rows))
    case Exists(q) => OfBool(EvalSub(c, i, q, env).rows != [])
    case Scalar(q) => var vs := FirstColumn(EvalSub(c, i, q, env).rows); if vs == [] then Null else vs[0]
  }

  function EvalExprs(c: Ctx, i: nat, env: Env, es: Exprs): seq<Value>
    requires i < |c.t.nodes|
    decreases |c.t.nodes| - i, 1, es
  {
    match es
    case Nil => []
    case Cons(e, rest) => [EvalExpr(c, i, env, e)] + EvalExprs(c, i, env, rest)
  }

  function FirstColumn(rows: seq<Row>): seq<Value> {
    Map((r: Row) => if r == [] then Null else r[0], rows)
  }

  /** A query nested in node `i`; nested queries have larger numbers. */
  function EvalSub(c: Ctx, i: nat, q: nat, env: Env): Relation
    requires i < |c.t.nodes|
    decreases |c.t.nodes| - i, 0
  {
    if i < q < |c.t.nodes| then EvalNode(c, q, env) else NoRows
  }

  /** Whether a frame of node `i` satisfies a condition; a missing condition holds. */
  predicate Holds(c: Ctx, i: nat, env: Env, cond: Option<Expr>, f: Frame)
    requires i < |c.t.nodes|
    decreases |c.t.nodes| - i, 2
  {
    cond.None? || Truthy(c.w, EvalExpr(c, i, f + env, cond.value))
  }

  /** The rows behind a FROM item. A derived table does not see its siblings. */
  function SourceRelation(c: Ctx, i: nat, env: Env, s: Source): Relation
    requires i < |c.t.nodes|
    decreases |c.t.nodes| - i, 2
  {
    match s
    case Base(schema, name, _) =>
      var key := if schema == "" then name else schema + "." + name;
      if key in c.db then c.db[key] else NoRows
    case Derived(q, _) => EvalSub(c, i, q, env)
  }

  function Binds(alias: string, r: Relation): seq<Bind> {
    Map((row: Row) => Bind(alias, r.cols, Some(row)), r.rows)
  }

  function NullBind(alias: string, r: Relation): Bind {
    Bind(alias, r.cols, None)
  }

  /** The frame that stands for "no match" on the left of a right join. */
  function Blank(c: Ctx, i: nat, env: Env, k: nat): (f: Frame)
    requires c.IsSelect(i) && k <= |c.t.nodes[i].from|
    ensures |f| == k
    decreases |c.t.nodes| - i, 3, k
  {
    if k == 0 then [] else
      var s := c.t.nodes[i].from[k - 1].source;
      Blank(c, i, env, k - 1) + [NullBind(s.AliasOrName(), SourceRelation(c, i, env, s))]
  }

  /** The frames produced by the first `k` FROM items of node `i`. */
  function Frames(c: Ctx, i: nat, env: Env, k: nat): seq<Frame>
    requires c.IsSelect(i) && k <= |c.t.nodes[i].from|
    decreases |c.t.nodes| - i, 4, k
  {
    if k == 0 then [[]] else
      var item := c.t.nodes[i].from[k - 1];
      var alias, rel := item.source.AliasOrName(), SourceRelation(c, i, env, item.source);
      var on := (f: Frame) => Holds(c, i, env, item.on, f);
      var ls, bs := Frames(c, i, env, k - 1), Binds(alias, rel);
      Join(item.kind, on, ls, bs, NullBind(alias, rel), Blank(c, i, env, k - 1))
  }

  /** The frames that survive WHERE. */
  function Kept(c: Ctx, i: nat, env: Env): seq<Frame>
    requires c.IsSelect(i)
    decreases |c.t.nodes| - i, 5
  {
    Filter((f: Frame) => Holds(c, i, env, c.t.nodes[i].filter, f), Frames(c, i, env, |c.t.nodes[i].from|))
  }

  function BindRow(b: Bind): Row {
    if b.row.Some? then b.row.value else seq(|b.cols|, _ => Null)
  }

  /** `SELECT *`. */
  function StarRow(f: Frame): Row {
    if f == [] then [] else BindRow(f[0]) + StarRow(f[1..])
  }

  function StarCols(f: Frame): seq<string> {
    if f == [] then [] else f[0].cols + StarCols(f[1..])
  }

  function ItemRow(c: Ctx, i: nat, env: Env, items: seq<Item>): Row
    requires i < |c.t.nodes|
    decreases |c.t.nodes| - i, 2, |items|
  {
    if items == [] then [] else [EvalExpr(c, i, env, items[0].e)] + ItemRow(c, i, env, items[1..])
  }

  function OutputRow(c: Ctx, i: nat, env: Env, f: Frame): Row
    requires c.IsSelect(i)
    decreases |c.t.nodes| - i, 3
  {
    match c.t.nodes[i].items
    case None => StarRow(f)
    case Some(items) => ItemRow(c, i, f + env, items)
  }

  function OutputCols(c: Ctx, i: nat, env: Env): seq<string>
    requires c.IsSelect(i)
    decreases |c.t.nodes| - i, 4
  {
    match c.t.nodes[i].items
    case None => StarCols(Blank(c, i, env, |c.t.nodes[i].from|))
    case Some(items) => Map((x: Item) => x.name, items)
  }

  /** The result of node `i` before LIMIT and OFFSET. */
  function Shaped(c: Ctx, i: nat, env: Env): Relation
    requires i < |c.t.nodes|
    decreases |c.t.nodes| - i, 6
  {
    match c.t.nodes[i]
    case Select(_, _, _, shape, keys, _, _, _) =>
      var show := (f: Frame) => Shown(OutputRow(c, i, env, f), ItemRow(c, i, f + env, keys));
      Relation(OutputCols(c, i, env), c.w.shape(shape, Map(show, Kept(c, i, env))))
    case Union(l, r, shape, keys, _, _, _) =>
      var left, right := EvalSub(c, i, l, env), EvalSub(c, i, r, env);
      var show := (row: Row) => Shown(row, ItemRow(c, i, [Bind("", left.cols, Some(row))] + env, keys));
      Relation(left.cols, c.w.shape(shape, Map(show, left.rows + right.rows)))
    case Statement(_) => NoRows
  }

  function EvalNode(c: Ctx, i: nat, env: Env): Relation
    requires i < |c.t.nodes|
    decreases |c.t.nodes| - i, 7
  {
    var r, n := Shaped(c, i, env), c.t.nodes[i];
    if n.Statement? then NoRows else Relation(r.cols, Window(c.w, n.limit, n.offset, r.rows))
  }

  /** The database as the first `k` CTEs extend it; each sees the ones before it. */
  function WithCtes(w: World, t: Tree, db: Database, k: nat): Database
    requires k <= |t.ctes|
  {
    if k == 0 then db else
      var before := WithCtes(w, t, db, k - 1);
      var q := t.ctes[k - 1].query;
      before[t.ctes[k - 1].name := if q < |t.nodes| then EvalNode(Ctx(w, t, before), q, []) else NoRows]
  }

  /** No table of the statement is schema-qualified. */
  predicate Unqualified(t: Tree) {
    forall i, j :: 0 <= i < |t.nodes| && t.nodes[i].Select? && 0 <= j < |t.nodes[i].from| ==>
      t.nodes[i].from[j].source.Base? ==> t.nodes[i].from[j].source.schema == ""
  }

  /** MySQL rejects a FROM clause that uses an alias twice (error 1066). */
  predicate DistinctAliases(from: seq<FromItem>) {
    forall a, b :: 0 <= a < b < |from| ==> from[a].source.AliasOrName() != from[b].source.AliasOrName()
  }

  predicate Accepted(t: Tree) {
    t.nodes != [] && forall i :: 0 <= i < |t.nodes| && t.nodes[i].Select? ==> DistinctAliases(t.nodes[i].from)
  }

  /** Running a statement: its rows, or None if the database rejects it. */
  function Run(w: World, t: Tree, db: Database): Option<Relation> {
    if Accepted(t) then Some(EvalNode(Ctx(w, t, WithCtes(w, t, db, |t.ctes|)), 0, [])) else None
  }
}
