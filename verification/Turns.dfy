/** One chat turn as a function of the tables and of what the foreign calls return: `ChatPipeline.run` of app/chat/pipeline.py,
    consumed to the end. Statements print and parse back to the same tree; a turn takes place at one instant. */
module Turns {
  import opened Wrappers
  import opened Sql
  import opened Profiles
  import opened Injector
  import opened Guard
  import opened Fixer
  import opened Limiter
  import opened Templater
  import opened QueryCaching
  import opened ResultCaching
  import opened QuestionKeys
  import opened Answerer
  import opened Events

  const GREETING_REPLY: string := "Hello! I am Botree Insights Assistant. Ask me anything about your database!"
  const MSG_BLOCKED_SQL: string := "I wasn't able to run that safely. Could you try rephrasing your question?"
  const MSG_BLOCKED_RBAC: string := "I can't show that data under your current access permissions."
  const MSG_DB_ERROR: string := "I couldn't reach the database, or the query took too long. Please try again in a moment."
  const MSG_GENERIC_ERROR: string := "Sorry, something went wrong while answering that. Please try again."

  const PAYLOAD_ROWS := 200
  const MAX_SUGGESTIONS := 3

  datatype QueryResult = QueryResult(columns: seq<string>, rows: seq<RowDict>)

  /** What stays the same from turn to turn. `backend` is what the analytics database answers to a statement at an instant. */
  datatype Settings = Settings(
    cat: Catalog, rowCap: nat, ttl: int, threshold: real, backend: (Tree, int) -> Result<QueryResult, string>,
    fingerprint: Profile -> string, isGreeting: string -> bool, temporalOf: string -> string, printer: Printer)

  /** A plan with no SQL in it is taken as empty text. */
  datatype Plan = General(answer: string) | Query(sql: Option<SqlText>)

  /** A request, and what each foreign call of its turn returns or raises. */
  datatype Turn = Turn(
    user: Profile, question: string, now: int,
    rewritten: Result<string, string>, exactFails: bool,
    embedding: Result<Embedding, string>, nearest: Result<Option<(string, real)>, string>, aliasFails: bool,
    plan: Result<Plan, string>, getFails: bool, putFails: bool, embeddedAgain: Result<Embedding, string>, storeFails: bool,
    written: Result<seq<string>, string>, suggestions: Result<seq<string>, string>, auditFails: bool)

  datatype Level = ExactLevel | SemanticLevel | ModelLevel | ResultLevel

  datatype Status = Fine | Blocked | Failed

  datatype AuditRow = AuditRow(user: string, question: string, rewritten: Option<string>, generated: Option<SqlText>,
                               final: Option<Tree>, level: Option<Level>, rowCount: Option<nat>, status: Status)

  /** The tables of the session; a rollback restores all of them. */
  datatype Tables = Tables(queries: QueryTable, results: ResultTable, audits: seq<AuditRow>)

  /** A turn under way: the tables, the events so far, the statements sent to the database, and the generator's variables. */
  datatype Progress = Progress(tables: Tables, events: seq<PipelineEvent>, sent: seq<Tree>, rewritten: string, normalized: string,
                               temporal: string, generated: Option<SqlText>, final: Option<Tree>, level: Option<Level>)

  datatype Outcome = Outcome(tables: Tables, events: seq<PipelineEvent>, sent: seq<Tree>)

  function Say(p: Progress, text: string): Progress {
    p.(events := p.events + [TextDelta(text)])
  }

  function AuditOf(x: Turn, p: Progress, status: Status): AuditRow {
    AuditRow(x.user.userId, x.question, if p.rewritten != x.question then Some(p.rewritten) else None, p.generated, p.final,
             p.level, None, status)
  }

  /** `_audit`: a failed insert rolls the session back. */
  function Audited(x: Turn, start: Tables, t: Tables, row: AuditRow): Tables {
    if x.auditFails then start else t.(audits := t.audits + [row])
  }

  function Ended(x: Turn, start: Tables, p: Progress, row: AuditRow): Outcome {
    Outcome(Audited(x, start, p.tables, row), p.events + [Done], p.sent)
  }

  /** The outermost handler. */
  function Crash(x: Turn, start: Tables, p: Progress): Outcome {
    var q := Say(p, MSG_GENERIC_ERROR);
    Ended(x, start, q, AuditOf(x, q, Failed))
  }

  function Begin(start: Tables, x: Turn): Progress {
    Progress(start, [], [], x.question, "", "", None, None, None)
  }

  /** The resolved question, its key and its temporal intent. */
  function Rewritten(st: Settings, p: Progress, r: string): Progress {
    p.(rewritten := r, normalized := QuestionKey(r), temporal := st.temporalOf(r))
  }

  function RunTurn(st: Settings, start: Tables, x: Turn, subtree: Option<HierMap>): Outcome {
    var p := Begin(start, x);
    if st.isGreeting(x.question) then
      var q := Say(p, GREETING_REPLY);
      Ended(x, start, q, AuditOf(x, q, Fine))
    else match x.rewritten
      case Err(_) => Crash(x, start, p)
      case Ok(r) => Resolve(st, start, x, subtree, Rewritten(st, p, r))
  }

  // ---- Where the SQL comes from ----

  /** The semantic lookup is best effort: a failing embedding or search is a miss. */
  function Nearest(x: Turn): Option<(string, real)> {
    if x.embedding.Ok? && x.nearest.Ok? then x.nearest.value else None
  }

  predicate HitsExactly(p: Progress) {
    ExactHit(p.tables.queries, p.normalized)
  }

  predicate HitsNearby(st: Settings, x: Turn, p: Progress) {
    SemanticHit(p.tables.queries, Nearest(x), p.temporal, st.threshold)
  }

  function WithQueries(p: Progress, t: QueryTable): Progress {
    p.(tables := p.tables.(queries := t))
  }

  function AfterExactHit(p: Progress): Progress
    requires HitsExactly(p)
  {
    WithQueries(p, Bumped(p.tables.queries, p.normalized)).(level := Some(ExactLevel))
  }

  function AfterNearbyHit(p: Progress, hit: string): Progress
    requires hit in p.tables.queries
  {
    var bumped := Bumped(p.tables.queries, hit);
    WithQueries(p, WithAlias(bumped, p.normalized, bumped[hit])).(level := Some(SemanticLevel))
  }

  function Resolve(st: Settings, start: Tables, x: Turn, subtree: Option<HierMap>, p: Progress): Outcome {
    if x.exactFails then Crash(x, start, p)
    else if HitsExactly(p) then FromCache(st, start, x, subtree, AfterExactHit(p), p.tables.queries[p.normalized])
    else if HitsNearby(st, x, p) then
      var hit := Nearest(x).value.0;
      if x.aliasFails then Crash(x, start, WithQueries(p, Bumped(p.tables.queries, hit)))
      else FromCache(st, start, x, subtree, AfterNearbyHit(p, hit), p.tables.queries[hit])
    else Planned(st, start, x, subtree, p)
  }

  function FromCache(st: Settings, start: Tables, x: Turn, subtree: Option<HierMap>, p: Progress, e: CachedQuery): Outcome {
    Checked(st, start, x, subtree, p, BoundText(e.template, e.spec, p.rewritten))
  }

  function Planned(st: Settings, start: Tables, x: Turn, subtree: Option<HierMap>, p: Progress): Outcome {
    match x.plan
    case Err(_) => Crash(x, start, p)
    case Ok(General(answer)) =>
      var q := Say(p, answer);
      Ended(x, start, q, AuditOf(x, q, Fine).(level := Some(ModelLevel)))
    case Ok(Query(sql)) =>
      Checked(st, start, x, subtree, p.(generated := sql, level := Some(ModelLevel)), GeneratedText(sql))
  }

  function GeneratedText(sql: Option<SqlText>): SqlText {
    if sql.Some? then sql.value else Unparseable("")
  }

  /** The turn once its question is resolved. */
  function Asked(st: Settings, start: Tables, x: Turn): Progress
    requires x.rewritten.Ok?
  {
    Rewritten(st, Begin(start, x), x.rewritten.value)
  }

  /** The SQL a turn is about: the bound template of the entry it hits, or else what the model wrote. */
  function SqlFor(st: Settings, x: Turn, p: Progress): SqlText {
    if HitsExactly(p) then Bound(p, p.normalized)
    else if HitsNearby(st, x, p) then Bound(p, Nearest(x).value.0)
    else if x.plan.Ok? && x.plan.value.Query? then GeneratedText(x.plan.value.sql)
    else Unparseable("")
  }

  function Bound(p: Progress, hit: string): SqlText
    requires hit in p.tables.queries
  {
    BoundText(p.tables.queries[hit].template, p.tables.queries[hit].spec, p.rewritten)
  }

  /** The turn when its SQL goes to the fixer, if there is SQL. */
  function Ready(st: Settings, x: Turn, p: Progress): Option<Progress> {
    if x.exactFails then None
    else if HitsExactly(p) then Some(AfterExactHit(p))
    else if HitsNearby(st, x, p) then (if x.aliasFails then None else Some(AfterNearbyHit(p, Nearest(x).value.0)))
    else if x.plan.Ok? && x.plan.value.Query? then Some(p.(generated := x.plan.value.sql, level := Some(ModelLevel)))
    else None
  }

  lemma ResolveIs(st: Settings, start: Tables, x: Turn, subtree: Option<HierMap>, p: Progress)
    requires Ready(st, x, p).Some?
    ensures Resolve(st, start, x, subtree, p) == Checked(st, start, x, subtree, Ready(st, x, p).value, SqlFor(st, x, p))
    ensures Ready(st, x, p).value.events == p.events && Ready(st, x, p).value.tables.results == p.tables.results
  {
  }

  function SqlOf(st: Settings, start: Tables, x: Turn): SqlText {
    if x.rewritten.Ok? then SqlFor(st, x, Asked(st, start, x)) else Unparseable("")
  }

  // ---- Guard, limit, scope ----

  function Checked(st: Settings, start: Tables, x: Turn, subtree: Option<HierMap>, p: Progress, sql: SqlText): Outcome {
    var fixed := FixText(st.cat, sql);
    match AssertSafe(st.cat, fixed)
    case Err(_) =>
      var q := Say(p, MSG_BLOCKED_SQL);
      Ended(x, start, q, AuditOf(x, q, Blocked).(generated := Some(if p.generated.Some? then p.generated.value else fixed)))
    case Ok(t) =>
      var limited := LimitTree(t, st.rowCap);
      Scoped(st, start, x, subtree, p.(events := p.events + [ToolSQL(limited)]), limited)
  }

  /** `apply_scope` does not look at the subtree of an unrestricted user. */
  function HierOf(x: Turn, subtree: Option<HierMap>): HierMap {
    if x.user.IsUnrestricted() || subtree.None? then map[] else subtree.value
  }

  function Scoped(st: Settings, start: Tables, x: Turn, subtree: Option<HierMap>, p: Progress, limited: Tree): Outcome {
    if !x.user.IsUnrestricted() && subtree.None? then Crash(x, start, p)
    else match ScopeTree(st.cat, x.user, HierOf(x, subtree), limited)
      case Err(_) =>
        var q := Say(p, MSG_BLOCKED_RBAC);
        Ended(x, start, q, AuditOf(x, q, Blocked))
      case Ok(f) => Executed(st, start, x, p.(final := Some(f)), f)
  }

  /** The SQL passes the guard and can be scoped for the user. */
  predicate Reaches(st: Settings, x: Turn, subtree: Option<HierMap>, sql: SqlText) {
    && AssertSafe(st.cat, FixText(st.cat, sql)).Ok?
    && (x.user.IsUnrestricted() || subtree.Some?)
    && ScopeTree(st.cat, x.user, HierOf(x, subtree), LimitTree(AssertSafe(st.cat, FixText(st.cat, sql)).value, st.rowCap)).Ok?
  }

  function FinalOf(st: Settings, x: Turn, subtree: Option<HierMap>, sql: SqlText): Tree
    requires Reaches(st, x, subtree, sql)
  {
    ScopeTree(st.cat, x.user, HierOf(x, subtree), LimitTree(AssertSafe(st.cat, FixText(st.cat, sql)).value, st.rowCap)).value
  }

  /** The turn once its SQL is vetted. */
  function Announced(st: Settings, x: Turn, subtree: Option<HierMap>, p: Progress, sql: SqlText): Progress
    requires Reaches(st, x, subtree, sql)
  {
    p.(events := p.events + [ToolSQL(LimitTree(AssertSafe(st.cat, FixText(st.cat, sql)).value, st.rowCap))],
       final := Some(FinalOf(st, x, subtree, sql)))
  }

  lemma CheckedIs(st: Settings, start: Tables, x: Turn, subtree: Option<HierMap>, p: Progress, sql: SqlText)
    requires Reaches(st, x, subtree, sql)
    ensures Checked(st, start, x, subtree, p, sql) == Executed(st, start, x, Announced(st, x, subtree, p, sql), FinalOf(st, x, subtree, sql))
  {
  }

  /** The turn executes a statement: its question is resolved, there is SQL, and it passes guard and scope. */
  predicate Executes(st: Settings, start: Tables, x: Turn, subtree: Option<HierMap>) {
    && !st.isGreeting(x.question) && x.rewritten.Ok? && Ready(st, x, Asked(st, start, x)).Some?
    && Reaches(st, x, subtree, SqlOf(st, start, x))
  }

  function ExecutedFrom(st: Settings, start: Tables, x: Turn, subtree: Option<HierMap>): Progress
    requires Executes(st, start, x, subtree)
  {
    Announced(st, x, subtree, Ready(st, x, Asked(st, start, x)).value, SqlOf(st, start, x))
  }

  lemma TurnExecutes(st: Settings, start: Tables, x: Turn, subtree: Option<HierMap>)
    requires Executes(st, start, x, subtree)
    ensures RunTurn(st, start, x, subtree)
         == Executed(st, start, x, ExecutedFrom(st, start, x, subtree), FinalOf(st, x, subtree, SqlOf(st, start, x)))
    ensures ExecutedFrom(st, start, x, subtree).tables.results == start.results
    ensures ExecutedFrom(st, start, x, subtree).events
         == [ToolSQL(LimitTree(AssertSafe(st.cat, FixText(st.cat, SqlOf(st, start, x))).value, st.rowCap))]
  {
    var p := Asked(st, start, x);
    ResolveIs(st, start, x, subtree, p);
    CheckedIs(st, start, x, subtree, Ready(st, x, p).value, SqlOf(st, start, x));
  }

  // ---- Execution ----

  function KeyOf(st: Settings, x: Turn, f: Tree): CacheKey {
    CacheKey(f, st.fingerprint(x.user))
  }

  function Executed(st: Settings, start: Tables, x: Turn, p: Progress, f: Tree): Outcome {
    var key, t := KeyOf(st, x, f), p.tables.results;
    var q := p.(tables := p.tables.(results := AfterFetch(t, key, x.now)));
    if x.getFails then Crash(x, start, p)
    else if IsLive(t, key, x.now) then Delivered(st, start, x, q, f, t[key].columns, t[key].rows, true)
    else Asking(st, start, x, q, f)
  }

  /** Asking the database. */
  function Asking(st: Settings, start: Tables, x: Turn, p: Progress, f: Tree): Outcome {
    match st.backend(f, x.now)
    case Err(_) =>
      var q := Say(p.(sent := p.sent + [f]), MSG_DB_ERROR);
      Ended(x, start, q, AuditOf(x, q, Failed))
    case Ok(qr) =>
      Delivered(st, start, x, p.(sent := p.sent + [f], tables := Remembered(st, start, x, p, f, qr)), f, qr.columns, qr.rows, false)
  }

  /** The embedding a new entry gets: the one already computed, or a second attempt. */
  function StoredEmbedding(x: Turn): Result<Embedding, string> {
    if x.embedding.Ok? then x.embedding else x.embeddedAgain
  }

  predicate Stores(x: Turn, p: Progress, rows: seq<RowDict>) {
    p.generated.Some? && rows != []
  }

  /** The tables after a fresh result: the result is put, and the query stored if the model wrote it and it found rows. A failing
      put or store rolls the session back to its start. */
  function Remembered(st: Settings, start: Tables, x: Turn, p: Progress, f: Tree, qr: QueryResult): Tables {
    var put := if x.putFails then start
               else p.tables.(results := AfterPut(p.tables.results, KeyOf(st, x, f), qr.columns, qr.rows, |qr.rows|, x.now + st.ttl));
    if !Stores(x, p, qr.rows) then put
    else if StoredEmbedding(x).Err? || x.storeFails then start
    else
      var (template, spec) := ParameterizedText(p.generated.value);
      put.(queries := Upserted(put.queries, p.normalized, StoredEmbedding(x).value, template, spec, p.temporal, x.user.userId))
  }

  // ---- The answer ----

  function Delivered(st: Settings, start: Tables, x: Turn, p: Progress, f: Tree, columns: seq<string>, rows: seq<RowDict>,
                     cached: bool): Outcome {
    var q := p.(events := p.events + [ToolResult(Payload(f, columns, Take(PAYLOAD_ROWS, JsonableRows(rows)), |rows|, cached))]);
    if rows != [] && x.written.Err? then Crash(x, start, q)
    else Answered(x, start, q, Answer(if rows == [] then "" else Concat(x.written.value), |rows|), Table(st.printer, columns, rows),
                  |rows|, cached)
  }

  function Answered(x: Turn, start: Tables, p: Progress, answer: string, table: string, rowCount: nat, cached: bool): Outcome {
    var q := Say(p, answer);
    var r := if table == "" then q else Say(q, "\n\n" + table);
    var row := AuditOf(x, r, Fine).(level := if cached then Some(ResultLevel) else r.level, rowCount := Some(rowCount));
    Ended(x, start, WithSuggestions(x, r), row)
  }

  function WithSuggestions(x: Turn, p: Progress): Progress {
    if x.suggestions.Err? || x.suggestions.value == [] then p
    else p.(events := p.events + [PipelineEvent.Suggestions(Take(MAX_SUGGESTIONS, x.suggestions.value))])
  }
}
