/** The parse-time guard: app/sqlsafety/guard.py. */
module Guard {
  import opened Characters
  import opened Wrappers
  import opened Sql
  import opened Injector
  import Relational

  const FORBIDDEN_CONSTRUCTS: set<string> :=
    {"Insert", "Update", "Delete", "Drop", "Create", "Alter", "TruncateTable", "Grant", "Set", "Use", "Command",
     "Transaction", "Commit", "Rollback", "Merge", "LoadData", "Into", "Lock"}

  const FORBIDDEN_FUNCTIONS: set<string> :=
    {"SLEEP", "BENCHMARK", "LOAD_FILE", "GET_LOCK", "RELEASE_LOCK", "UPDATEXML", "EXTRACTVALUE", "SYS_EVAL", "SYS_EXEC"}

  datatype SafetyError =
    NotParsed | StatementCount(n: nat) | NotSelect | Construct | ForbiddenFunction(name: string)
    | QualifiedTable(name: string) | UnknownTable(name: string)

  function UpperChar(c: char): char {
    if 'a' <= c <= 'z' then c - 'a' + 'A' else c
  }

  function Upper(s: string): string {
    if s == "" then "" else [UpperChar(s[0])] + Upper(s[1..])
  }

  // ---- The walk ----

  function BadCall(e: Expr): Option<string>
    decreases e
  {
    match e
    case Call(name, args) => if Upper(name) in FORBIDDEN_FUNCTIONS then Some(Upper(name)) else BadCalls(args)
    case Compare(_, l, r) => Either(BadCall(l), BadCall(r))
    case And(l, r) => Either(BadCall(l), BadCall(r))
    case Or(l, r) => Either(BadCall(l), BadCall(r))
    case Not(a) => BadCall(a)
    case IsNull(a) => BadCall(a)
    case In(a, list) => Either(BadCall(a), BadCalls(list))
    case InQuery(a, _) => BadCall(a)
    case _ => None
  }

  function BadCalls(es: Exprs): Option<string>
    decreases es
  {
    match es
    case Nil => None
    case Cons(e, rest) => Either(BadCall(e), BadCalls(rest))
  }

  function Either<T>(a: Option<T>, b: Option<T>): Option<T> {
    if a.Some? then a else b
  }

  function BadOptional(e: Option<Expr>): Option<string> {
    if e.None? then None else BadCall(e.value)
  }

  function BadItems(items: seq<Item>): Option<string> {
    if items == [] then None else Either(BadCall(items[0].e), BadItems(items[1..]))
  }

  /** `_assert_table_allowed`. */
  function CheckTable(cat: Catalog, ctes: set<string>, src: Source): Option<SafetyError> {
    match src
    case Derived(_, _) => None
    case Base(schema, name, _) =>
      if name in ctes && schema == "" then None
      else if schema != "" then Some(QualifiedTable(schema + "." + name))
      else if name !in cat.whitelist then Some(UnknownTable(name))
      else None
  }

  function CheckFrom(cat: Catalog, ctes: set<string>, from: seq<FromItem>): Option<SafetyError> {
    if from == [] then None else
      var bad := BadOptional(from[0].on);
      if bad.Some? then Some(ForbiddenFunction(bad.value))
      else Either(CheckTable(cat, ctes, from[0].source), CheckFrom(cat, ctes, from[1..]))
  }

  /** The expressions outside FROM and WHERE. */
  function ItemsOf(n: Node): seq<Item> {
    match n
    case Select(items, _, _, _, keys, _, _, _) => if items.Some? then items.value + keys else keys
    case Union(_, _, _, keys, _, _, _) => keys
    case Statement(_) => []
  }

  function CheckNode(cat: Catalog, ctes: set<string>, n: Node): Option<SafetyError> {
    match n
    case Statement(kind) => if kind in FORBIDDEN_CONSTRUCTS then Some(Construct) else None
    case Union(_, _, _, keys, _, _, marks) =>
      if marks * FORBIDDEN_CONSTRUCTS != {} then Some(Construct)
      else if BadItems(keys).Some? then Some(ForbiddenFunction(BadItems(keys).value))
      else None
    case Select(_, from, filter, _, _, _, _, marks) =>
      var bad := Either(BadOptional(filter), BadItems(ItemsOf(n)));
      if marks * FORBIDDEN_CONSTRUCTS != {} then Some(Construct)
      else if bad.Some? then Some(ForbiddenFunction(bad.value))
      else CheckFrom(cat, ctes, from)
  }

  function CheckNodes(cat: Catalog, ctes: set<string>, nodes: seq<Node>): Option<SafetyError> {
    if nodes == [] then None else Either(CheckNode(cat, ctes, nodes[0]), CheckNodes(cat, ctes, nodes[1..]))
  }

  function CteNames(t: Tree): set<string> {
    set k | 0 <= k < |t.ctes| && t.ctes[k].name != "" :: t.ctes[k].name
  }

  /** `assert_safe` on a parsed statement. */
  function CheckTree(cat: Catalog, t: Tree): Option<SafetyError> {
    if t.nodes == [] || t.nodes[0].Statement? then Some(NotSelect) else CheckNodes(cat, CteNames(t), t.nodes)
  }

  /** `assert_safe` on text. */
  function AssertSafe(cat: Catalog, sql: SqlText): Result<Tree, SafetyError> {
    match sql
    case Unparseable(_) => Err(NotParsed)
    case Parsed(t, rest) =>
      if rest != [] then Err(StatementCount(1 + |rest|))
      else match CheckTree(cat, t)
           case Some(e) => Err(e)
           case None => Ok(t)
  }

  // ---- What a passing statement is ----

  /** The functions no statement may call. */
  predicate IsDangerous(f: string) {
    || f == "sleep" || f == "benchmark" || f == "load_file" || f == "get_lock" || f == "release_lock"
    || f == "updatexml" || f == "extractvalue" || f == "sys_eval" || f == "sys_exec"
  }

  predicate ChangesData(construct: string) {
    || construct == "Insert" || construct == "Update" || construct == "Delete" || construct == "Merge" || construct == "LoadData"
    || construct == "TruncateTable"
  }

  predicate ChangesSchema(construct: string) {
    construct == "Create" || construct == "Alter" || construct == "Drop"
  }

  predicate Administers(construct: string) {
    || construct == "Grant" || construct == "Set" || construct == "Use" || construct == "Command" || construct == "Transaction"
    || construct == "Commit" || construct == "Rollback"
  }

  predicate WritesOutOrLocks(construct: string) {
    construct == "Into" || construct == "Lock"
  }

  /** More than reading. */
  predicate IsMoreThanReading(construct: string) {
    ChangesData(construct) || ChangesSchema(construct) || Administers(construct) || WritesOutOrLocks(construct)
  }

  lemma ConstructsAre(construct: string)
    ensures construct in FORBIDDEN_CONSTRUCTS <==> IsMoreThanReading(construct)
  {
  }

  lemma {:induction false} UpperSame(a: string, b: string)
    ensures Upper(a) == Upper(b) <==> SameName(a, b)
  {
    if a != [] && b != [] {
      UpperSame(a[1..], b[1..]);
      assert SameName(a, b) <==> SameLetter(a[0], b[0]) && SameName(a[1..], b[1..]) by {
        if SameName(a, b) {
          assert forall k :: 0 <= k < |a[1..]| ==> a[1..][k] == a[k + 1] && b[1..][k] == b[k + 1];
        }
        if SameLetter(a[0], b[0]) && SameName(a[1..], b[1..]) {
          assert forall k :: 1 <= k < |a| ==> a[k] == a[1..][k - 1] && b[k] == b[1..][k - 1];
        }
      }
      assert UpperChar(a[0]) == UpperChar(b[0]) <==> SameLetter(a[0], b[0]);
      assert Upper(a)[0] == UpperChar(a[0]) && Upper(a)[1..] == Upper(a[1..]);
      assert Upper(b)[0] == UpperChar(b[0]) && Upper(b)[1..] == Upper(b[1..]);
    }
  }

  predicate NoLowerCase(s: string) {
    forall k :: 0 <= k < |s| ==> !('a' <= s[k] <= 'z')
  }

  lemma {:induction false} UpperFixed(s: string)
    requires NoLowerCase(s)
    ensures Upper(s) == s
  {
    if s != [] {
      UpperFixed(s[1..]);
      assert s == [s[0]] + s[1..];
    }
  }

  lemma NameIs(name: string, f: string, g: string)
    requires SameName(g, f) && NoLowerCase(g)
    ensures Upper(name) == g <==> SameName(name, f)
  {
    UpperSame(name, f);
    UpperSame(g, f);
    UpperFixed(g);
  }

  lemma SleepUpper()
    ensures SameName("SLEEP", "sleep") && NoLowerCase("SLEEP")
  {
  }

  lemma BenchmarkUpper()
    ensures SameName("BENCHMARK", "benchmark") && NoLowerCase("BENCHMARK")
  {
  }

  lemma LoadFileUpper()
    ensures SameName("LOAD_FILE", "load_file") && NoLowerCase("LOAD_FILE")
  {
  }

  lemma GetLockUpper()
    ensures SameName("GET_LOCK", "get_lock") && NoLowerCase("GET_LOCK")
  {
  }

  lemma ReleaseLockUpper()
    ensures SameName("RELEASE_LOCK", "release_lock") && NoLowerCase("RELEASE_LOCK")
  {
  }

  lemma UpdateXmlUpper()
    ensures SameName("UPDATEXML", "updatexml") && NoLowerCase("UPDATEXML")
  {
  }

  lemma ExtractValueUpper()
    ensures SameName("EXTRACTVALUE", "extractvalue") && NoLowerCase("EXTRACTVALUE")
  {
  }

  lemma SysEvalUpper()
    ensures SameName("SYS_EVAL", "sys_eval") && NoLowerCase("SYS_EVAL")
  {
  }

  lemma SysExecUpper()
    ensures SameName("SYS_EXEC", "sys_exec") && NoLowerCase("SYS_EXEC")
  {
  }

  /** A dangerous function and its name in the guard's list. */
  predicate ForbiddenAs(f: string, g: string) {
    || (f == "sleep" && g == "SLEEP")
    || (f == "benchmark" && g == "BENCHMARK")
    || (f == "load_file" && g == "LOAD_FILE")
    || (f == "get_lock" && g == "GET_LOCK")
    || (f == "release_lock" && g == "RELEASE_LOCK")
    || (f == "updatexml" && g == "UPDATEXML")
    || (f == "extractvalue" && g == "EXTRACTVALUE")
    || (f == "sys_eval" && g == "SYS_EVAL")
    || (f == "sys_exec" && g == "SYS_EXEC")
  }

  lemma ForbiddenInUpperCase(f: string, g: string)
    requires ForbiddenAs(f, g)
    ensures SameName(g, f) && NoLowerCase(g)
  {
    if
    case f == "sleep" => SleepUpper();
    case f == "benchmark" => BenchmarkUpper();
    case f == "load_file" => LoadFileUpper();
    case f == "get_lock" => GetLockUpper();
    case f == "release_lock" => ReleaseLockUpper();
    case f == "updatexml" => UpdateXmlUpper();
    case f == "extractvalue" => ExtractValueUpper();
    case f == "sys_eval" => SysEvalUpper();
    case f == "sys_exec" => SysExecUpper();
  }

  lemma DangerousForbidden(f: string)
    ensures IsDangerous(f) <==> exists g :: ForbiddenAs(f, g) && g in FORBIDDEN_FUNCTIONS
  {
    assert ForbiddenAs("sleep", "SLEEP") && ForbiddenAs("benchmark", "BENCHMARK") && ForbiddenAs("load_file", "LOAD_FILE");
    assert ForbiddenAs("get_lock", "GET_LOCK") && ForbiddenAs("release_lock", "RELEASE_LOCK") && ForbiddenAs("updatexml", "UPDATEXML");
    assert ForbiddenAs("extractvalue", "EXTRACTVALUE") && ForbiddenAs("sys_eval", "SYS_EVAL") && ForbiddenAs("sys_exec", "SYS_EXEC");
  }

  lemma ForbiddenDangerous(g: string)
    ensures g in FORBIDDEN_FUNCTIONS <==> exists f :: ForbiddenAs(f, g) && IsDangerous(f)
  {
    assert ForbiddenAs("sleep", "SLEEP") && ForbiddenAs("benchmark", "BENCHMARK") && ForbiddenAs("load_file", "LOAD_FILE");
    assert ForbiddenAs("get_lock", "GET_LOCK") && ForbiddenAs("release_lock", "RELEASE_LOCK") && ForbiddenAs("updatexml", "UPDATEXML");
    assert ForbiddenAs("extractvalue", "EXTRACTVALUE") && ForbiddenAs("sys_eval", "SYS_EVAL") && ForbiddenAs("sys_exec", "SYS_EXEC");
  }

  /** The guard's test of a function name finds the dangerous ones in any case. */
  lemma FunctionsAre(name: string)
    ensures Upper(name) in FORBIDDEN_FUNCTIONS <==> exists f :: IsDangerous(f) && SameName(name, f)
  {
    if f :| IsDangerous(f) && SameName(name, f) {
      DangerousForbidden(f);
      var g :| ForbiddenAs(f, g) && g in FORBIDDEN_FUNCTIONS;
      ForbiddenInUpperCase(f, g);
      NameIs(name, f, g);
    }
    if Upper(name) in FORBIDDEN_FUNCTIONS {
      ForbiddenDangerous(Upper(name));
      var f :| ForbiddenAs(f, Upper(name)) && IsDangerous(f);
      ForbiddenInUpperCase(f, Upper(name));
      NameIs(name, f, Upper(name));
    }
  }

  predicate Calls(e: Expr, f: string)
    decreases e
  {
    match e
    case Call(name, args) => SameName(name, f) || AnyCalls(args, f)
    case Compare(_, l, r) => Calls(l, f) || Calls(r, f)
    case And(l, r) => Calls(l, f) || Calls(r, f)
    case Or(l, r) => Calls(l, f) || Calls(r, f)
    case Not(a) => Calls(a, f)
    case IsNull(a) => Calls(a, f)
    case In(a, list) => Calls(a, f) || AnyCalls(list, f)
    case InQuery(a, _) => Calls(a, f)
    case _ => false
  }

  predicate AnyCalls(es: Exprs, f: string)
    decreases es
  {
    match es
    case Nil => false
    case Cons(e, rest) => Calls(e, f) || AnyCalls(rest, f)
  }

  /** The expression belongs to the node. */
  predicate ExprOf(n: Node, e: Expr) {
    || (n.Select? && n.filter == Some(e))
    || (n.Select? && exists k :: 0 <= k < |n.from| && n.from[k].on == Some(e))
    || exists k :: 0 <= k < |ItemsOf(n)| && ItemsOf(n)[k].e == e
  }

  predicate Allowed(cat: Catalog, ctes: set<string>, src: Source) {
    src.Base? ==> src.schema == "" && (src.name in ctes || src.name in cat.whitelist)
  }

  ghost predicate SafeNode(cat: Catalog, ctes: set<string>, n: Node) {
    && (n.Statement? ==> !IsMoreThanReading(n.kind))
    && (!n.Statement? ==> forall m :: m in n.marks ==> !IsMoreThanReading(m))
    && CallsNothingForbidden(n)
    && (n.Select? ==> forall k :: 0 <= k < |n.from| ==> Allowed(cat, ctes, n.from[k].source))
  }

  ghost predicate Safe(cat: Catalog, t: Tree) {
    t.nodes != [] && !t.nodes[0].Statement? && forall i :: 0 <= i < |t.nodes| ==> SafeNode(cat, CteNames(t), t.nodes[i])
  }

  lemma {:induction false} BadCallMeaning(e: Expr)
    ensures BadCall(e).None? <==> forall f :: IsDangerous(f) ==> !Calls(e, f)
    decreases e
  {
    match e
    case Call(name, args) => BadCallsMeaning(args); FunctionsAre(name);
    case Compare(_, l, r) => BadCallMeaning(l); BadCallMeaning(r);
    case And(l, r) => BadCallMeaning(l); BadCallMeaning(r);
    case Or(l, r) => BadCallMeaning(l); BadCallMeaning(r);
    case Not(a) => BadCallMeaning(a);
    case IsNull(a) => BadCallMeaning(a);
    case In(a, list) => BadCallMeaning(a); BadCallsMeaning(list);
    case InQuery(a, _) => BadCallMeaning(a);
    case _ =>
  }

  lemma {:induction false} BadCallsMeaning(es: Exprs)
    ensures BadCalls(es).None? <==> forall f :: IsDangerous(f) ==> !AnyCalls(es, f)
    decreases es
  {
    match es
    case Nil =>
    case Cons(e, rest) => BadCallMeaning(e); BadCallsMeaning(rest);
  }

  lemma {:induction false} BadItemsMeaning(items: seq<Item>)
    ensures BadItems(items).None? <==> forall k :: 0 <= k < |items| ==> BadCall(items[k].e).None?
  {
    if items != [] {
      BadItemsMeaning(items[1..]);
      assert forall k :: 1 <= k < |items| ==> items[k] == items[1..][k - 1];
    }
  }

  lemma {:induction false} CheckFromMeaning(cat: Catalog, ctes: set<string>, from: seq<FromItem>)
    ensures CheckFrom(cat, ctes, from).None? <==> forall k :: 0 <= k < |from| ==>
              BadOptional(from[k].on).None? && Allowed(cat, ctes, from[k].source)
  {
    if from != [] {
      CheckFromMeaning(cat, ctes, from[1..]);
      assert forall k :: 1 <= k < |from| ==> from[k] == from[1..][k - 1];
    }
  }

  /** No expression of the node calls a forbidden function. */
  ghost predicate CallsNothingForbidden(n: Node) {
    forall e, f :: ExprOf(n, e) && IsDangerous(f) ==> !Calls(e, f)
  }

  predicate NoBadItem(items: seq<Item>) {
    forall k :: 0 <= k < |items| ==> BadCall(items[k].e).None?
  }

  predicate NoBadOn(from: seq<FromItem>) {
    forall k :: 0 <= k < |from| ==> BadOptional(from[k].on).None?
  }

  lemma CallsMeaning(n: Node)
    ensures CallsNothingForbidden(n) <==>
      (n.Select? ==> BadOptional(n.filter).None? && NoBadOn(n.from)) && NoBadItem(ItemsOf(n))
  {
    forall e | ExprOf(n, e) ensures BadCall(e).None? <==> forall f :: IsDangerous(f) ==> !Calls(e, f) {
      BadCallMeaning(e);
    }
    if CallsNothingForbidden(n) {
      if n.Select? {
        assert n.filter.Some? ==> ExprOf(n, n.filter.value);
        forall k | 0 <= k < |n.from| ensures BadOptional(n.from[k].on).None? {
          assert n.from[k].on.Some? ==> ExprOf(n, n.from[k].on.value);
        }
      }
      forall k | 0 <= k < |ItemsOf(n)| ensures BadCall(ItemsOf(n)[k].e).None? {
        assert ExprOf(n, ItemsOf(n)[k].e);
      }
    }
  }

  lemma MarksAre(marks: set<string>)
    ensures marks * FORBIDDEN_CONSTRUCTS == {} <==> forall m :: m in marks ==> !IsMoreThanReading(m)
  {
    forall m ensures m in FORBIDDEN_CONSTRUCTS <==> IsMoreThanReading(m) {
      ConstructsAre(m);
    }
    if forall m :: m in marks ==> !IsMoreThanReading(m) {
      assert forall m :: m !in marks * FORBIDDEN_CONSTRUCTS;
    } else {
      var m :| m in marks && IsMoreThanReading(m);
      assert m in marks * FORBIDDEN_CONSTRUCTS;
    }
  }

  lemma CheckNodeMeaning(cat: Catalog, ctes: set<string>, n: Node)
    ensures CheckNode(cat, ctes, n).None? <==> SafeNode(cat, ctes, n)
  {
    CallsMeaning(n);
    BadItemsMeaning(ItemsOf(n));
    if n.Select? {
      CheckFromMeaning(cat, ctes, n.from);
      assert NoBadOn(n.from) <==> forall k :: 0 <= k < |n.from| ==> BadOptional(n.from[k].on).None?;
    }
    if n.Statement? {
      ConstructsAre(n.kind);
    } else {
      MarksAre(n.marks);
    }
  }

  lemma {:induction false} CheckNodesMeaning(cat: Catalog, ctes: set<string>, nodes: seq<Node>)
    ensures CheckNodes(cat, ctes, nodes).None? <==> forall i :: 0 <= i < |nodes| ==> SafeNode(cat, ctes, nodes[i])
  {
    if nodes != [] {
      CheckNodeMeaning(cat, ctes, nodes[0]);
      CheckNodesMeaning(cat, ctes, nodes[1..]);
      assert forall i :: 1 <= i < |nodes| ==> nodes[i] == nodes[1..][i - 1];
    }
  }

  /** The guard passes exactly the single SELECT/UNION statements that nowhere do more than read and nowhere call a dangerous function,
      however its name is written, and all of whose tables are unqualified and either whitelisted or CTEs of the statement. */
  lemma GuardMeaning(cat: Catalog, sql: SqlText)
    ensures AssertSafe(cat, sql).Ok? <==> sql.Parsed? && sql.rest == [] && Safe(cat, sql.first)
    ensures AssertSafe(cat, sql).Ok? ==> AssertSafe(cat, sql).value == sql.first && Unqualified(sql.first)
  {
    if sql.Parsed? && sql.rest == [] && sql.first.nodes != [] {
      var t := sql.first;
      CheckNodesMeaning(cat, CteNames(t), t.nodes);
      if Safe(cat, t) {
        forall i | 0 <= i < |t.nodes| ensures SafeNode(cat, CteNames(t), t.nodes[i]) {
        }
      }
    }
  }

  /** SELECT sleep(10) FROM table */
  function Sleeping(table: string): Tree {
    Tree([Select(Some([Item("sleep(10)", Call("sleep", Cons(Lit(0), Nil)))]), [FromItem(Relational.Cross, Base("", table, ""), None)], None, 0, [],
                 None, 0, {})], [], [NumLit(10)], [])
  }

  /** A dangerous call in lower case is refused by its name, whatever table is read. */
  lemma SleepRefused(cat: Catalog, table: string)
    ensures AssertSafe(cat, Parsed(Sleeping(table), [])) == Err(ForbiddenFunction("SLEEP"))
  {
    SleepUpper();
    NameIs("sleep", "sleep", "SLEEP");
    var n := Sleeping(table).nodes[0];
    assert BadItems(ItemsOf(n)) == Some("SLEEP");
  }

  /** The verdict does not depend on literals, placeholders or columns. */
  lemma VerdictIgnoresLeaves(cat: Catalog, t: Tree, cols: seq<Column>, lits: seq<Leaf>)
    ensures CheckTree(cat, t.(cols := cols, lits := lits)) == CheckTree(cat, t)
  {
    assert CteNames(t.(cols := cols, lits := lits)) == CteNames(t);
  }
}
