/** What chat turns may put into the caches and what they may take out of them, over every run: app/chat/pipeline.py. */
module TurnCaches {
  import opened Wrappers
  import Relational
  import opened Sql
  import opened Profiles
  import opened Injector
  import opened Guard
  import opened Fixer
  import opened Limiter
  import opened Templater
  import opened QueryCaching
  import opened ResultCaching
  import opened Answerer
  import opened Events
  import opened Turns

  // ---- When a turn stores its query ----

  /** A statement that the model wrote is executed now and finds rows, and its template can be stored. */
  predicate WritesQuery(st: Settings, x: Turn, results: ResultTable, generated: Option<SqlText>, f: Tree) {
    && generated.Some? && !x.getFails && !IsLive(results, KeyOf(st, x, f), x.now)
    && st.backend(f, x.now).Ok? && st.backend(f, x.now).value.rows != []
    && StoredEmbedding(x).Ok? && !x.storeFails
  }

  predicate Misses(st: Settings, x: Turn, p: Progress) {
    !x.exactFails && !HitsExactly(p) && !HitsNearby(st, x, p)
  }

  /** The model wrote SQL that reaches the database and finds rows, and storing it and auditing the turn work. */
  predicate PlanIsStored(st: Settings, x: Turn, subtree: Option<HierMap>, results: ResultTable) {
    && !x.auditFails && x.plan.Ok? && x.plan.value.Query? && x.plan.value.sql.Some?
    && Reaches(st, x, subtree, x.plan.value.sql.value)
    && WritesQuery(st, x, results, x.plan.value.sql, FinalOf(st, x, subtree, x.plan.value.sql.value))
  }

  predicate StoresQuery(st: Settings, start: Tables, x: Turn, subtree: Option<HierMap>) {
    !st.isGreeting(x.question) && x.rewritten.Ok? && Misses(st, x, Asked(st, start, x)) && PlanIsStored(st, x, subtree, start.results)
  }

  function StoredUnder(x: Turn, t: QueryTable, p: Progress, raw: SqlText): QueryTable
    requires StoredEmbedding(x).Ok?
  {
    var (template, spec) := ParameterizedText(raw);
    Upserted(t, p.normalized, StoredEmbedding(x).value, template, spec, p.temporal, x.user.userId)
  }

  /** The query table after a turn that had the table `t` when it was checked. */
  ghost predicate QueriesAfter(x: Turn, start: Tables, t: QueryTable, o: Outcome) {
    o.tables.queries == start.queries || o.tables.queries == t
  }

  lemma DeliveredTables(st: Settings, start: Tables, x: Turn, p: Progress, f: Tree, columns: seq<string>, rows: seq<RowDict>,
                        cached: bool)
    ensures var o := Delivered(st, start, x, p, f, columns, rows, cached);
      && o.tables.queries == (if x.auditFails then start else p.tables).queries
      && o.tables.results == (if x.auditFails then start else p.tables).results
  {
    var q := p.(events := p.events + [ToolResult(Payload(f, columns, Take(PAYLOAD_ROWS, JsonableRows(rows)), |rows|, cached))]);
    if rows == [] || x.written.Ok? {
      AnsweredTables(x, start, q, Answer(if rows == [] then "" else Concat(x.written.value), |rows|), Table(st.printer, columns, rows),
                     |rows|, cached);
    }
  }

  lemma AnsweredTables(x: Turn, start: Tables, p: Progress, answer: string, table: string, rowCount: nat, cached: bool)
    ensures var o := Answered(x, start, p, answer, table, rowCount, cached);
      && o.tables.queries == (if x.auditFails then start else p.tables).queries
      && o.tables.results == (if x.auditFails then start else p.tables).results
  {
  }

  lemma ExecutedQueries(st: Settings, start: Tables, x: Turn, p: Progress, f: Tree)
    requires p.generated.Some? ==> p.tables.queries == start.queries
    ensures var o := Executed(st, start, x, p, f);
      if WritesQuery(st, x, p.tables.results, p.generated, f) && !x.auditFails
      then o.tables.queries == StoredUnder(x, start.queries, p, p.generated.value)
      else QueriesAfter(x, start, p.tables.queries, o)
  {
    var key, t := KeyOf(st, x, f), p.tables.results;
    var q := p.(tables := p.tables.(results := AfterFetch(t, key, x.now)));
    if !x.getFails {
      if IsLive(t, key, x.now) {
        DeliveredTables(st, start, x, q, f, t[key].columns, t[key].rows, true);
      } else if st.backend(f, x.now).Ok? {
        var qr := st.backend(f, x.now).value;
        var r := q.(sent := q.sent + [f], tables := Remembered(st, start, x, q, f, qr));
        DeliveredTables(st, start, x, r, f, qr.columns, qr.rows, false);
      }
    }
  }

  lemma CheckedQueries(st: Settings, start: Tables, x: Turn, subtree: Option<HierMap>, p: Progress, sql: SqlText)
    requires p.generated.Some? ==> p.tables.queries == start.queries
    ensures var o := Checked(st, start, x, subtree, p, sql);
      if Reaches(st, x, subtree, sql) && WritesQuery(st, x, p.tables.results, p.generated, FinalOf(st, x, subtree, sql)) && !x.auditFails
      then o.tables.queries == StoredUnder(x, start.queries, p, p.generated.value)
      else QueriesAfter(x, start, p.tables.queries, o)
  {
    if Reaches(st, x, subtree, sql) {
      CheckedIs(st, start, x, subtree, p, sql);
      ExecutedQueries(st, start, x, Announced(st, x, subtree, p, sql), FinalOf(st, x, subtree, sql));
    }
  }

  /** Every entry of `after` answers as some entry of `before` did. */
  ghost predicate NothingLearned(before: QueryTable, after: QueryTable) {
    forall k :: k in after ==> exists j :: j in before && Answers(before[j]) == Answers(after[k])
  }

  lemma SameLearned(t: QueryTable)
    ensures NothingLearned(t, t)
  {
  }

  lemma HitLearned(t: QueryTable, hit: string, key: string)
    requires hit in t
    ensures NothingLearned(t, Bumped(t, hit))
    ensures NothingLearned(t, WithAlias(Bumped(t, hit), key, Bumped(t, hit)[hit]))
  {
    var bumped := Bumped(t, hit);
    var after := WithAlias(bumped, key, bumped[hit]);
    forall k | k in bumped ensures exists j :: j in t && Answers(t[j]) == Answers(bumped[k]) {
      assert Answers(t[k]) == Answers(bumped[k]);
    }
    forall k | k in after ensures exists j :: j in t && Answers(t[j]) == Answers(after[k]) {
      assert Answers(t[if k in t then k else hit]) == Answers(after[k]);
    }
  }

  lemma HitStoresNothing(st: Settings, start: Tables, x: Turn, subtree: Option<HierMap>, p: Progress, sql: SqlText)
    requires p.generated.None? && NothingLearned(start.queries, p.tables.queries)
    ensures NothingLearned(start.queries, Checked(st, start, x, subtree, p, sql).tables.queries)
  {
    SameLearned(start.queries);
    CheckedQueries(st, start, x, subtree, p, sql);
  }

  lemma ExactHitStoresNothing(st: Settings, start: Tables, x: Turn, subtree: Option<HierMap>, p: Progress)
    requires p.tables == start && p.generated.None? && !x.exactFails && HitsExactly(p)
    ensures NothingLearned(start.queries, Resolve(st, start, x, subtree, p).tables.queries)
  {
    HitLearned(start.queries, p.normalized, p.normalized);
    var e := start.queries[p.normalized];
    var q := AfterExactHit(p);
    assert q.tables.queries == Bumped(start.queries, p.normalized);
    HitStoresNothing(st, start, x, subtree, q, BoundText(e.template, e.spec, p.rewritten));
  }

  lemma NearbyHitStoresNothing(st: Settings, start: Tables, x: Turn, subtree: Option<HierMap>, p: Progress)
    requires p.tables == start && p.generated.None? && !x.exactFails && !HitsExactly(p) && HitsNearby(st, x, p)
    ensures NothingLearned(start.queries, Resolve(st, start, x, subtree, p).tables.queries)
  {
    var hit := Nearest(x).value.0;
    HitLearned(start.queries, hit, p.normalized);
    if x.aliasFails {
      CrashQueries(x, start, WithQueries(p, Bumped(start.queries, hit)));
    } else {
      var e := start.queries[hit];
      var q := AfterNearbyHit(p, hit);
      HitStoresNothing(st, start, x, subtree, q, BoundText(e.template, e.spec, p.rewritten));
    }
  }

  lemma CrashQueries(x: Turn, start: Tables, p: Progress)
    requires NothingLearned(start.queries, p.tables.queries)
    ensures NothingLearned(start.queries, Crash(x, start, p).tables.queries)
  {
    SameLearned(start.queries);
  }

  lemma PlannedQueries(st: Settings, start: Tables, x: Turn, subtree: Option<HierMap>, p: Progress)
    requires p.tables == start && p.generated.None?
    ensures var after := Planned(st, start, x, subtree, p).tables.queries;
      if PlanIsStored(st, x, subtree, start.results) then after == StoredUnder(x, start.queries, p, x.plan.value.sql.value)
      else after == start.queries
  {
    if x.plan.Ok? && x.plan.value.Query? {
      var raw := x.plan.value.sql;
      CheckedQueries(st, start, x, subtree, p.(generated := raw, level := Some(ModelLevel)), GeneratedText(raw));
    }
  }

  /**
   * A turn stores its query exactly on the stated condition, which says nothing about how the turn ends: in particular a turn
   * whose answer fails after that has stored it. Without it the table learns no new answer, on a cache hit or otherwise.
   */
  lemma StoredExactlyWhen(st: Settings, start: Tables, x: Turn, subtree: Option<HierMap>)
    ensures var after := RunTurn(st, start, x, subtree).tables.queries;
      if StoresQuery(st, start, x, subtree) then after == StoredUnder(x, start.queries, Asked(st, start, x), x.plan.value.sql.value)
      else NothingLearned(start.queries, after)
  {
    SameLearned(start.queries);
    if !st.isGreeting(x.question) && x.rewritten.Ok? {
      ResolvedQueries(st, start, x, subtree, Asked(st, start, x));
    }
  }

  lemma ResolvedQueries(st: Settings, start: Tables, x: Turn, subtree: Option<HierMap>, p: Progress)
    requires p.tables == start && p.generated.None?
    ensures var after := Resolve(st, start, x, subtree, p).tables.queries;
      if Misses(st, x, p) && PlanIsStored(st, x, subtree, start.results)
      then after == StoredUnder(x, start.queries, p, x.plan.value.sql.value)
      else NothingLearned(start.queries, after)
  {
    SameLearned(start.queries);
    if x.exactFails {
    } else if HitsExactly(p) {
      ExactHitStoresNothing(st, start, x, subtree, p);
    } else if HitsNearby(st, x, p) {
      NearbyHitStoresNothing(st, start, x, subtree, p);
    } else {
      PlannedQueries(st, start, x, subtree, p);
    }
  }

  // ---- Errored turns can store ----

  lemma DeliveredFails(st: Settings, start: Tables, x: Turn, p: Progress, f: Tree, columns: seq<string>, rows: seq<RowDict>, cached: bool)
    requires rows != [] && x.written.Err? && !x.auditFails
    ensures var o := Delivered(st, start, x, p, f, columns, rows, cached); LastStatus(o) == Some(Failed)
  {
  }

  function LastStatus(o: Outcome): Option<Status> {
    if o.tables.audits == [] then None else Some(o.tables.audits[|o.tables.audits| - 1].status)
  }

  /** If the model's answer then fails, the stored query stays although the turn is audited as failed. */
  lemma FailedTurnStores(st: Settings, start: Tables, x: Turn, subtree: Option<HierMap>)
    requires StoresQuery(st, start, x, subtree) && x.written.Err?
    ensures var o := RunTurn(st, start, x, subtree);
      LastStatus(o) == Some(Failed) && ExactHit(o.tables.queries, Asked(st, start, x).normalized)
  {
    StoredExactlyWhen(st, start, x, subtree);
    PlannedFails(st, start, x, subtree, Asked(st, start, x));
  }

  lemma PlannedFails(st: Settings, start: Tables, x: Turn, subtree: Option<HierMap>, p: Progress)
    requires p.tables == start && PlanIsStored(st, x, subtree, start.results) && x.written.Err?
    ensures LastStatus(Planned(st, start, x, subtree, p)) == Some(Failed)
  {
    var raw := x.plan.value.sql;
    var f := FinalOf(st, x, subtree, raw.value);
    var limited := LimitTree(AssertSafe(st.cat, FixText(st.cat, raw.value)).value, st.rowCap);
    var q := p.(generated := raw, level := Some(ModelLevel), events := p.events + [ToolSQL(limited)], final := Some(f));
    var fetched := q.(tables := q.tables.(results := AfterFetch(start.results, KeyOf(st, x, f), x.now)));
    var qr := st.backend(f, x.now).value;
    var r := fetched.(sent := fetched.sent + [f], tables := Remembered(st, start, x, fetched, f, qr));
    DeliveredFails(st, start, x, r, f, qr.columns, qr.rows, false);
  }

  /** SELECT * FROM s */
  function AllRows(): Tree {
    Tree([Select(None, [FromItem(Relational.Cross, Base("", "s", ""), None)], None, 0, [], None, 0, {})], [], [], [])
  }

  /** A backend that answers everything with one row. */
  function OneRowSettings(printer: Printer): Settings {
    Settings(Catalog({"s"}, {}, map[], {}, map[], map[]), 1, 1, 1.0, (f: Tree, t: int) => Ok(QueryResult(["x"], [map[]])),
             (p: Profile) => "", (q: string) => false, (q: string) => "", printer)
  }

  /** The first question of an unrestricted user, for which the model writes a query and then no answer. */
  function UnansweredTurn(): Turn {
    Turn(Profile("u", "VP", None, "", "", []), "q", 0, Ok("q"), false, Ok([]), Ok(None), false,
         Ok(Query(Some(Parsed(AllRows(), [])))), false, false, Ok([]), false, Err(""), Ok([]), false)
  }

  lemma AllRowsPasses(cat: Catalog)
    requires "s" in cat.whitelist
    ensures AssertSafe(cat, FixText(cat, Parsed(AllRows(), []))) == Ok(AllRows())
  {
    var t := AllRows();
    assert !AnyRewritten(cat, AliasMapOf(t), PresentIn(t), t.cols);
    forall i | 0 <= i < |t.nodes| ensures SafeNode(cat, CteNames(t), t.nodes[i]) {
      assert t.nodes[i].from[0].source == Base("", "s", "");
    }
    GuardMeaning(cat, Parsed(t, []));
  }

  /** Such a turn: it is audited as failed, and its query is stored. */
  lemma UnansweredTurnStores(printer: Printer)
    ensures var st, start := OneRowSettings(printer), Tables(map[], map[], []);
      StoresQuery(st, start, UnansweredTurn(), None) && LastStatus(RunTurn(st, start, UnansweredTurn(), None)) == Some(Failed)
  {
    var st, start, x := OneRowSettings(printer), Tables(map[], map[], []), UnansweredTurn();
    AllRowsPasses(st.cat);
    assert Reaches(st, x, None, Parsed(AllRows(), []));
    FailedTurnStores(st, start, x, None);
  }

  // ---- Where cached queries come from ----

  /** The template was made from SQL that passed the guard, was limited and scoped for some user, and found rows. */
  ghost predicate IsOrigin(st: Settings, template: SqlText, spec: Spec, raw: SqlText, x: Turn, subtree: Option<HierMap>) {
    && (template, spec) == ParameterizedText(raw) && Reaches(st, x, subtree, raw)
    && var answer := st.backend(FinalOf(st, x, subtree, raw), x.now); answer.Ok? && answer.value.rows != []
  }

  ghost predicate HasOrigin(st: Settings, template: SqlText, spec: Spec) {
    exists raw, x, subtree :: IsOrigin(st, template, spec, raw, x, subtree)
  }

  ghost predicate QueriesSafe(st: Settings, t: QueryTable) {
    forall k :: k in t ==> HasOrigin(st, t[k].template, t[k].spec)
  }

  /** What the entry answers with that a turn stores. */
  function StoredAnswer(st: Settings, x: Turn): (SqlText, Spec, string)
    requires x.rewritten.Ok? && x.plan.Ok? && x.plan.value.Query? && x.plan.value.sql.Some?
  {
    var (template, spec) := ParameterizedText(x.plan.value.sql.value);
    (template, spec, st.temporalOf(x.rewritten.value))
  }

  /** An entry after a turn answers as one before it did, or is the one the turn stored. */
  lemma TurnLearns(st: Settings, start: Tables, x: Turn, subtree: Option<HierMap>, k: string)
    requires k in RunTurn(st, start, x, subtree).tables.queries
    ensures var e := RunTurn(st, start, x, subtree).tables.queries[k];
      || (exists j :: j in start.queries && Answers(start.queries[j]) == Answers(e))
      || (StoresQuery(st, start, x, subtree) && Answers(e) == StoredAnswer(st, x))
  {
    StoredExactlyWhen(st, start, x, subtree);
    if StoresQuery(st, start, x, subtree) && k in start.queries {
      assert k != Asked(st, start, x).normalized ==> Answers(start.queries[k]) == Answers(RunTurn(st, start, x, subtree).tables.queries[k]);
    }
  }

  lemma StoredHasOrigin(st: Settings, start: Tables, x: Turn, subtree: Option<HierMap>)
    requires StoresQuery(st, start, x, subtree)
    ensures HasOrigin(st, StoredAnswer(st, x).0, StoredAnswer(st, x).1)
  {
    var raw := x.plan.value.sql.value;
    var (template, spec) := ParameterizedText(raw);
    assert IsOrigin(st, template, spec, raw, x, subtree);
  }

  lemma TurnKeepsQueries(st: Settings, start: Tables, x: Turn, subtree: Option<HierMap>)
    requires QueriesSafe(st, start.queries)
    ensures QueriesSafe(st, RunTurn(st, start, x, subtree).tables.queries)
  {
    var after := RunTurn(st, start, x, subtree).tables.queries;
    forall k | k in after ensures HasOrigin(st, after[k].template, after[k].spec) {
      TurnLearns(st, start, x, subtree, k);
      if j :| j in start.queries && Answers(start.queries[j]) == Answers(after[k]) {
        assert HasOrigin(st, start.queries[j].template, start.queries[j].spec);
      } else {
        StoredHasOrigin(st, start, x, subtree);
      }
    }
  }

  // ---- Hits pass the guard ----

  /** An entry with an origin passes the guard again, bound for any question. */
  lemma HitPassesGuard(st: Settings, e: CachedQuery, question: string)
    requires HasOrigin(st, e.template, e.spec)
    ensures AssertSafe(st.cat, FixText(st.cat, BoundText(e.template, e.spec, question))).Ok?
  {
    var raw, x, subtree :| IsOrigin(st, e.template, e.spec, raw, x, subtree);
    BoundVerdict(st.cat, raw, question);
  }

  lemma DeliveredExtends(st: Settings, start: Tables, x: Turn, p: Progress, f: Tree, columns: seq<string>, rows: seq<RowDict>,
                         cached: bool)
    ensures p.events <= Delivered(st, start, x, p, f, columns, rows, cached).events
  {
  }

  lemma ExecutedExtends(st: Settings, start: Tables, x: Turn, p: Progress, f: Tree)
    ensures p.events <= Executed(st, start, x, p, f).events
  {
    var key, t := KeyOf(st, x, f), p.tables.results;
    var q := p.(tables := p.tables.(results := AfterFetch(t, key, x.now)));
    if !x.getFails {
      if IsLive(t, key, x.now) {
        DeliveredExtends(st, start, x, q, f, t[key].columns, t[key].rows, true);
      } else if st.backend(f, x.now).Ok? {
        var qr := st.backend(f, x.now).value;
        var r := q.(sent := q.sent + [f], tables := Remembered(st, start, x, q, f, qr));
        DeliveredExtends(st, start, x, r, f, qr.columns, qr.rows, false);
      }
    }
  }

  lemma CheckedAnnounces(st: Settings, start: Tables, x: Turn, subtree: Option<HierMap>, p: Progress, sql: SqlText)
    requires p.events == [] && AssertSafe(st.cat, FixText(st.cat, sql)).Ok?
    ensures var o := Checked(st, start, x, subtree, p, sql);
      o.events != [] && o.events[0] == ToolSQL(LimitTree(AssertSafe(st.cat, FixText(st.cat, sql)).value, st.rowCap))
  {
    var limited := LimitTree(AssertSafe(st.cat, FixText(st.cat, sql)).value, st.rowCap);
    var q := p.(events := p.events + [ToolSQL(limited)]);
    if x.user.IsUnrestricted() || subtree.Some? {
      match ScopeTree(st.cat, x.user, HierOf(x, subtree), limited)
      case Err(_) =>
      case Ok(f) => ExecutedExtends(st, start, x, q.(final := Some(f)), f);
    }
  }

  /** A turn answered from the query cache. */
  predicate IsCacheHit(st: Settings, start: Tables, x: Turn) {
    !st.isGreeting(x.question) && x.rewritten.Ok? && IsHit(st, x, Asked(st, start, x))
  }

  predicate IsHit(st: Settings, x: Turn, p: Progress) {
    !x.exactFails && (HitsExactly(p) || (HitsNearby(st, x, p) && !x.aliasFails))
  }

  lemma HitAnnounces(st: Settings, start: Tables, x: Turn, subtree: Option<HierMap>, p: Progress)
    requires QueriesSafe(st, p.tables.queries) && IsHit(st, x, p) && p.events == []
    ensures var o := Resolve(st, start, x, subtree, p); o.events != [] && o.events[0].ToolSQL?
  {
    if HitsExactly(p) {
      var e := p.tables.queries[p.normalized];
      HitPassesGuard(st, e, p.rewritten);
      CheckedAnnounces(st, start, x, subtree, AfterExactHit(p), BoundText(e.template, e.spec, p.rewritten));
    } else {
      var hit := Nearest(x).value.0;
      var e := p.tables.queries[hit];
      HitPassesGuard(st, e, p.rewritten);
      CheckedAnnounces(st, start, x, subtree, AfterNearbyHit(p, hit), BoundText(e.template, e.spec, p.rewritten));
    }
  }

  /** With entries of known origin, no cache hit is ever blocked by the guard: its first event announces its SQL. */
  lemma HitsAreNotBlocked(st: Settings, start: Tables, x: Turn, subtree: Option<HierMap>)
    requires QueriesSafe(st, start.queries) && IsCacheHit(st, start, x)
    ensures var o := RunTurn(st, start, x, subtree); o.events != [] && o.events[0].ToolSQL?
  {
    HitAnnounces(st, start, x, subtree, Asked(st, start, x));
  }

  // ---- Where cached results come from ----

  /** The row holds what the database answered when it was put. */
  ghost predicate IsRecord(st: Settings, key: CacheKey, e: ResultCaching.Entry, now: int) {
    var since := e.expiresAt - st.ttl;
    && since <= now && st.backend(key.sql, since).Ok?
    && var qr := st.backend(key.sql, since).value; e.columns == qr.columns && e.rows == JsonableRows(qr.rows)
  }

  ghost predicate ResultsTrue(st: Settings, t: ResultTable, now: int) {
    forall key :: key in t ==> IsRecord(st, key, t[key], now)
  }

  lemma RememberedResults(st: Settings, start: Tables, x: Turn, p: Progress, f: Tree, qr: QueryResult)
    requires ResultsTrue(st, start.results, x.now) && ResultsTrue(st, p.tables.results, x.now) && st.backend(f, x.now) == Ok(qr)
    ensures ResultsTrue(st, Remembered(st, start, x, p, f, qr).results, x.now)
  {
    var key := KeyOf(st, x, f);
    var put := AfterPut(p.tables.results, key, qr.columns, qr.rows, |qr.rows|, x.now + st.ttl);
    assert IsRecord(st, key, put[key], x.now);
  }

  lemma AskingResults(st: Settings, start: Tables, x: Turn, p: Progress, f: Tree)
    requires ResultsTrue(st, start.results, x.now) && ResultsTrue(st, p.tables.results, x.now)
    ensures ResultsTrue(st, Asking(st, start, x, p, f).tables.results, x.now)
  {
    if st.backend(f, x.now).Ok? {
      var qr := st.backend(f, x.now).value;
      RememberedResults(st, start, x, p, f, qr);
      DeliveredTables(st, start, x, p.(sent := p.sent + [f], tables := Remembered(st, start, x, p, f, qr)), f, qr.columns, qr.rows, false);
    }
  }

  lemma ExecutedResults(st: Settings, start: Tables, x: Turn, p: Progress, f: Tree)
    requires ResultsTrue(st, start.results, x.now) && p.tables.results == start.results
    ensures ResultsTrue(st, Executed(st, start, x, p, f).tables.results, x.now)
  {
    var key, t := KeyOf(st, x, f), p.tables.results;
    var q := p.(tables := p.tables.(results := AfterFetch(t, key, x.now)));
    assert ResultsTrue(st, q.tables.results, x.now);
    if !x.getFails {
      if IsLive(t, key, x.now) {
        DeliveredTables(st, start, x, q, f, t[key].columns, t[key].rows, true);
      } else {
        AskingResults(st, start, x, q, f);
      }
    }
  }

  lemma CheckedResults(st: Settings, start: Tables, x: Turn, subtree: Option<HierMap>, p: Progress, sql: SqlText)
    requires ResultsTrue(st, start.results, x.now) && p.tables.results == start.results
    ensures ResultsTrue(st, Checked(st, start, x, subtree, p, sql).tables.results, x.now)
  {
    if Reaches(st, x, subtree, sql) {
      CheckedIs(st, start, x, subtree, p, sql);
      ExecutedResults(st, start, x, Announced(st, x, subtree, p, sql), FinalOf(st, x, subtree, sql));
    }
  }

  lemma ResolvedResults(st: Settings, start: Tables, x: Turn, subtree: Option<HierMap>, p: Progress)
    requires ResultsTrue(st, start.results, x.now) && p.tables.results == start.results
    ensures ResultsTrue(st, Resolve(st, start, x, subtree, p).tables.results, x.now)
  {
    if Ready(st, x, p).Some? {
      ResolveIs(st, start, x, subtree, p);
      CheckedResults(st, start, x, subtree, Ready(st, x, p).value, SqlFor(st, x, p));
    }
  }

  lemma TurnKeepsResults(st: Settings, start: Tables, x: Turn, subtree: Option<HierMap>)
    requires ResultsTrue(st, start.results, x.now)
    ensures ResultsTrue(st, RunTurn(st, start, x, subtree).tables.results, x.now)
  {
    if !st.isGreeting(x.question) && x.rewritten.Ok? {
      ResolvedResults(st, start, x, subtree, Asked(st, start, x));
    }
  }

  // ---- What is served ----

  /** The payload is what the database answered to its statement at `since`: now, or less than a lifetime ago. */
  ghost predicate ServedAt(st: Settings, now: int, payload: Payload, since: int) {
    && (since == now || since <= now < since + st.ttl) && st.backend(payload.sql, since).Ok?
    && var qr := st.backend(payload.sql, since).value;
       payload.columns == qr.columns && payload.rows == Take(200, JsonableRows(qr.rows)) && payload.rowCount == |qr.rows|
  }

  ghost predicate Served(st: Settings, now: int, payload: Payload) {
    exists since :: ServedAt(st, now, payload, since)
  }

  ghost predicate AllServed(st: Settings, now: int, es: seq<PipelineEvent>) {
    forall i :: 0 <= i < |es| && es[i].ToolResult? ==> Served(st, now, es[i].payload)
  }

  predicate NoResult(es: seq<PipelineEvent>) {
    forall i :: 0 <= i < |es| ==> !es[i].ToolResult?
  }

  function Tail(x: Turn, answer: string, table: string): seq<PipelineEvent> {
    [TextDelta(answer)] + (if table == "" then [] else [TextDelta("\n\n" + table)])
    + (if x.suggestions.Err? || x.suggestions.value == [] then []
       else [PipelineEvent.Suggestions(Take(MAX_SUGGESTIONS, x.suggestions.value))]) + [Done]
  }

  lemma AnsweredTail(x: Turn, start: Tables, p: Progress, answer: string, table: string, rowCount: nat, cached: bool)
    ensures Answered(x, start, p, answer, table, rowCount, cached).events == p.events + Tail(x, answer, table)
    ensures NoResult(Tail(x, answer, table))
  {
  }

  function ResultOf(f: Tree, columns: seq<string>, rows: seq<RowDict>, cached: bool): Payload {
    Payload(f, columns, Take(PAYLOAD_ROWS, JsonableRows(rows)), |rows|, cached)
  }

  /** After the result come only texts, suggestions and Done. */
  lemma DeliveredTail(st: Settings, start: Tables, x: Turn, p: Progress, f: Tree, columns: seq<string>, rows: seq<RowDict>,
                      cached: bool) returns (tail: seq<PipelineEvent>)
    ensures NoResult(tail)
    ensures Delivered(st, start, x, p, f, columns, rows, cached).events
         == p.events + [ToolResult(ResultOf(f, columns, rows, cached))] + tail
  {
    if rows != [] && x.written.Err? {
      tail := [TextDelta(MSG_GENERIC_ERROR), Done];
    } else {
      var q := p.(events := p.events + [ToolResult(ResultOf(f, columns, rows, cached))]);
      var answer, table := Answer(if rows == [] then "" else Concat(x.written.value), |rows|), Table(st.printer, columns, rows);
      AnsweredTail(x, start, q, answer, table, |rows|, cached);
      tail := Tail(x, answer, table);
    }
  }

  lemma ResultServed(st: Settings, now: int, es: seq<PipelineEvent>, payload: Payload, tail: seq<PipelineEvent>, all: seq<PipelineEvent>)
    requires NoResult(es) && NoResult(tail) && Served(st, now, payload) && all == es + [ToolResult(payload)] + tail
    ensures AllServed(st, now, all)
  {
  }

  lemma ExecutedServed(st: Settings, start: Tables, x: Turn, p: Progress, f: Tree)
    requires ResultsTrue(st, p.tables.results, x.now) && NoResult(p.events)
    ensures AllServed(st, x.now, Executed(st, start, x, p, f).events)
  {
    var key, t := KeyOf(st, x, f), p.tables.results;
    var q := p.(tables := p.tables.(results := AfterFetch(t, key, x.now)));
    if !x.getFails {
      if IsLive(t, key, x.now) {
        var e := t[key];
        var since := e.expiresAt - st.ttl;
        assert IsRecord(st, key, e, x.now);
        JsonableIdempotent(st.backend(f, since).value.rows);
        assert ServedAt(st, x.now, ResultOf(f, e.columns, e.rows, true), since);
        var tail := DeliveredTail(st, start, x, q, f, e.columns, e.rows, true);
        ResultServed(st, x.now, p.events, ResultOf(f, e.columns, e.rows, true), tail, Executed(st, start, x, p, f).events);
      } else if st.backend(f, x.now).Ok? {
        var qr := st.backend(f, x.now).value;
        assert ServedAt(st, x.now, ResultOf(f, qr.columns, qr.rows, false), x.now);
        var r := q.(sent := q.sent + [f], tables := Remembered(st, start, x, q, f, qr));
        var tail := DeliveredTail(st, start, x, r, f, qr.columns, qr.rows, false);
        ResultServed(st, x.now, p.events, ResultOf(f, qr.columns, qr.rows, false), tail, Executed(st, start, x, p, f).events);
      }
    }
  }

  lemma RefusedNoResult(st: Settings, start: Tables, x: Turn, subtree: Option<HierMap>, p: Progress, sql: SqlText)
    requires p.events == [] && !Reaches(st, x, subtree, sql)
    ensures NoResult(Checked(st, start, x, subtree, p, sql).events)
  {
    var es, safe := Checked(st, start, x, subtree, p, sql).events, AssertSafe(st.cat, FixText(st.cat, sql));
    if safe.Err? {
      assert es == [TextDelta(MSG_BLOCKED_SQL), Done];
    } else {
      var text := if !x.user.IsUnrestricted() && subtree.None? then MSG_GENERIC_ERROR else MSG_BLOCKED_RBAC;
      assert es == [ToolSQL(LimitTree(safe.value, st.rowCap)), TextDelta(text), Done];
    }
  }

  lemma CheckedServed(st: Settings, start: Tables, x: Turn, subtree: Option<HierMap>, p: Progress, sql: SqlText)
    requires ResultsTrue(st, p.tables.results, x.now) && p.events == []
    ensures AllServed(st, x.now, Checked(st, start, x, subtree, p, sql).events)
  {
    if Reaches(st, x, subtree, sql) {
      CheckedIs(st, start, x, subtree, p, sql);
      ExecutedServed(st, start, x, Announced(st, x, subtree, p, sql), FinalOf(st, x, subtree, sql));
    } else {
      RefusedNoResult(st, start, x, subtree, p, sql);
    }
  }

  lemma UnreadyNoResult(st: Settings, start: Tables, x: Turn, subtree: Option<HierMap>, p: Progress)
    requires p.events == [] && Ready(st, x, p).None?
    ensures NoResult(Resolve(st, start, x, subtree, p).events)
  {
    var misses := !x.exactFails && !HitsExactly(p) && !HitsNearby(st, x, p);
    var text := if misses && x.plan.Ok? then x.plan.value.answer else MSG_GENERIC_ERROR;
    assert Resolve(st, start, x, subtree, p).events == [TextDelta(text), Done];
  }

  lemma ResolvedServed(st: Settings, start: Tables, x: Turn, subtree: Option<HierMap>, p: Progress)
    requires ResultsTrue(st, p.tables.results, x.now) && p.events == []
    ensures AllServed(st, x.now, Resolve(st, start, x, subtree, p).events)
  {
    if Ready(st, x, p).Some? {
      ResolveIs(st, start, x, subtree, p);
      CheckedServed(st, start, x, subtree, Ready(st, x, p).value, SqlFor(st, x, p));
    } else {
      UnreadyNoResult(st, start, x, subtree, p);
    }
  }

  /** Every result a turn delivers, cached or not, is what the database answered to exactly that statement within the lifetime. */
  lemma TurnServes(st: Settings, start: Tables, x: Turn, subtree: Option<HierMap>)
    requires ResultsTrue(st, start.results, x.now)
    ensures AllServed(st, x.now, RunTurn(st, start, x, subtree).events)
  {
    if !st.isGreeting(x.question) && x.rewritten.Ok? {
      ResolvedServed(st, start, x, subtree, Asked(st, start, x));
    }
  }

  // ---- Live results stay ----

  ghost predicate Stays(before: ResultTable, after: ResultTable, key: CacheKey) {
    key in before ==> key in after && after[key] == before[key]
  }

  lemma ExecutedKeepsLive(st: Settings, start: Tables, x: Turn, p: Progress, f: Tree, key: CacheKey)
    requires p.tables.results == start.results && IsLive(start.results, key, x.now)
    ensures Stays(start.results, Executed(st, start, x, p, f).tables.results, key)
  {
    var own, t := KeyOf(st, x, f), p.tables.results;
    var q := p.(tables := p.tables.(results := AfterFetch(t, own, x.now)));
    assert Stays(start.results, q.tables.results, key);
    if !x.getFails {
      if IsLive(t, own, x.now) {
        DeliveredTables(st, start, x, q, f, t[own].columns, t[own].rows, true);
      } else if st.backend(f, x.now).Ok? {
        var qr := st.backend(f, x.now).value;
        assert Stays(start.results, Remembered(st, start, x, q, f, qr).results, key);
        DeliveredTables(st, start, x, q.(sent := q.sent + [f], tables := Remembered(st, start, x, q, f, qr)), f, qr.columns, qr.rows, false);
      }
    }
  }

  /** A turn leaves every live result in place: it replaces only what is not live, and a rollback goes back to the start of the turn. */
  lemma TurnKeepsLive(st: Settings, start: Tables, x: Turn, subtree: Option<HierMap>, key: CacheKey)
    requires IsLive(start.results, key, x.now)
    ensures Stays(start.results, RunTurn(st, start, x, subtree).tables.results, key)
  {
    if Executes(st, start, x, subtree) {
      TurnExecutes(st, start, x, subtree);
      ExecutedKeepsLive(st, start, x, ExecutedFrom(st, start, x, subtree), FinalOf(st, x, subtree, SqlOf(st, start, x)), key);
    } else {
      IdleKeepsResults(st, start, x, subtree);
    }
  }

  lemma RefusedKeepsResults(st: Settings, start: Tables, x: Turn, subtree: Option<HierMap>, p: Progress, sql: SqlText)
    requires p.tables.results == start.results && !Reaches(st, x, subtree, sql)
    ensures Checked(st, start, x, subtree, p, sql).tables.results == start.results
  {
  }

  lemma UnreadyKeepsResults(st: Settings, start: Tables, x: Turn, subtree: Option<HierMap>, p: Progress)
    requires p.tables.results == start.results && Ready(st, x, p).None?
    ensures Resolve(st, start, x, subtree, p).tables.results == start.results
  {
  }

  /** A turn that executes nothing leaves the result cache alone. */
  lemma IdleKeepsResults(st: Settings, start: Tables, x: Turn, subtree: Option<HierMap>)
    requires !Executes(st, start, x, subtree)
    ensures RunTurn(st, start, x, subtree).tables.results == start.results
  {
    if !st.isGreeting(x.question) && x.rewritten.Ok? {
      var p := Asked(st, start, x);
      if Ready(st, x, p).Some? {
        ResolveIs(st, start, x, subtree, p);
        RefusedKeepsResults(st, start, x, subtree, Ready(st, x, p).value, SqlFor(st, x, p));
      } else {
        UnreadyKeepsResults(st, start, x, subtree, p);
      }
    }
  }

  // ---- Runs ----

  /** What happens to the tables: turns, the background sweeper, and invalidations. */
  datatype Op = TurnOp(x: Turn, subtree: Option<HierMap>) | SweepOp(at: int) | InvalidateOp(at: int)

  function TimeOf(op: Op): int {
    if op.TurnOp? then op.x.now else op.at
  }

  function Step(st: Settings, t: Tables, op: Op): Tables {
    match op
    case TurnOp(x, subtree) => RunTurn(st, t, x, subtree).tables
    case SweepOp(now) => t.(results := AfterSweep(t.results, now))
    case InvalidateOp(_) => t.(queries := Invalidated(t.queries))
  }

  function After(st: Settings, ops: seq<Op>): Tables {
    if ops == [] then Tables(map[], map[], []) else Step(st, After(st, ops[..|ops| - 1]), ops[|ops| - 1])
  }

  predicate InOrder(ops: seq<Op>) {
    forall i, j :: 0 <= i < j < |ops| ==> TimeOf(ops[i]) <= TimeOf(ops[j])
  }

  lemma ResultsLater(st: Settings, t: ResultTable, now: int, later: int)
    requires ResultsTrue(st, t, now) && now <= later
    ensures ResultsTrue(st, t, later)
  {
    forall key | key in t ensures IsRecord(st, key, t[key], later) {
      assert IsRecord(st, key, t[key], now);
    }
  }

  /** The turn at position `i` of the run stored an entry with this answer: the model wrote its SQL, which passed the guard, was
      limited and scoped for the turn's user, and found rows. */
  ghost predicate StoredAt(st: Settings, ops: seq<Op>, answer: (SqlText, Spec, string), i: nat) {
    i < |ops| && ops[i].TurnOp? && StoresAnswer(st, After(st, ops[..i]), ops[i].x, ops[i].subtree, answer)
  }

  ghost predicate StoresAnswer(st: Settings, start: Tables, x: Turn, subtree: Option<HierMap>, answer: (SqlText, Spec, string)) {
    StoresQuery(st, start, x, subtree) && answer == StoredAnswer(st, x)
  }

  ghost predicate WasStored(st: Settings, ops: seq<Op>, answer: (SqlText, Spec, string)) {
    exists i: nat :: StoredAt(st, ops, answer, i)
  }

  lemma StoredBefore(st: Settings, ops: seq<Op>, n: nat, answer: (SqlText, Spec, string))
    requires n <= |ops| && WasStored(st, ops[..n], answer)
    ensures WasStored(st, ops, answer)
  {
    var i: nat :| StoredAt(st, ops[..n], answer, i);
    assert ops[..n][..i] == ops[..i] && ops[..n][i] == ops[i];
    assert StoredAt(st, ops, answer, i);
  }

  /** Some entry of the table answers so. */
  predicate IsAnswered(t: QueryTable, answer: (SqlText, Spec, string)) {
    exists j :: j in t && Answers(t[j]) == answer
  }

  lemma TurnStores(st: Settings, start: Tables, x: Turn, subtree: Option<HierMap>, k: string)
    requires k in RunTurn(st, start, x, subtree).tables.queries
    ensures var answer := Answers(RunTurn(st, start, x, subtree).tables.queries[k]);
      IsAnswered(start.queries, answer) || StoresAnswer(st, start, x, subtree, answer)
  {
    TurnLearns(st, start, x, subtree, k);
  }

  /** Every cached query of a run was stored by some turn of the run. */
  lemma {:induction false} EveryQueryWasStored(st: Settings, ops: seq<Op>, k: string)
    requires k in After(st, ops).queries
    ensures WasStored(st, ops, Answers(After(st, ops).queries[k]))
  {
    var n := |ops| - 1;
    var before, op, answer := After(st, ops[..n]), ops[n], Answers(After(st, ops).queries[k]);
    if op.TurnOp? {
      TurnStores(st, before, op.x, op.subtree, k);
    } else {
      assert k in before.queries && Answers(before.queries[k]) == answer;
    }
    if IsAnswered(before.queries, answer) {
      var j :| j in before.queries && Answers(before.queries[j]) == answer;
      EveryQueryWasStored(st, ops[..n], j);
      StoredBefore(st, ops, n, answer);
    } else {
      assert StoredAt(st, ops, answer, n);
    }
  }

  lemma RunQueriesSafe(st: Settings, ops: seq<Op>)
    ensures QueriesSafe(st, After(st, ops).queries)
  {
    var queries := After(st, ops).queries;
    forall k | k in queries ensures HasOrigin(st, queries[k].template, queries[k].spec) {
      EveryQueryWasStored(st, ops, k);
      var i: nat :| StoredAt(st, ops, Answers(queries[k]), i);
      StoredHasOrigin(st, After(st, ops[..i]), ops[i].x, ops[i].subtree);
    }
  }

  /** The invariants of every run. */
  lemma {:induction false} RunKeepsCaches(st: Settings, ops: seq<Op>, now: int)
    requires InOrder(ops) && (ops != [] ==> TimeOf(ops[|ops| - 1]) <= now)
    ensures QueriesSafe(st, After(st, ops).queries) && ResultsTrue(st, After(st, ops).results, now)
    ensures forall k :: k in After(st, ops).queries ==> WasStored(st, ops, Answers(After(st, ops).queries[k]))
  {
    RunQueriesSafe(st, ops);
    forall k | k in After(st, ops).queries ensures WasStored(st, ops, Answers(After(st, ops).queries[k])) {
      EveryQueryWasStored(st, ops, k);
    }
    if ops != [] {
      var front, op := ops[..|ops| - 1], ops[|ops| - 1];
      RunKeepsCaches(st, front, TimeOf(op));
      var before, after := After(st, front), After(st, ops);
      match op {
        case TurnOp(x, subtree) => TurnKeepsResults(st, before, x, subtree);
        case SweepOp(at) =>
          assert forall key :: key in after.results ==> key in before.results && after.results[key] == before.results[key];
        case InvalidateOp(at) =>
      }
      ResultsLater(st, after.results, TimeOf(op), now);
    }
  }

  /** After any run, a turn that hits the query cache is not blocked by the guard, and what any turn delivers is fresh enough. */
  lemma AnyRunServesSafely(st: Settings, ops: seq<Op>, x: Turn, subtree: Option<HierMap>)
    requires InOrder(ops + [TurnOp(x, subtree)])
    ensures var o := RunTurn(st, After(st, ops), x, subtree);
      AllServed(st, x.now, o.events) && (IsCacheHit(st, After(st, ops), x) ==> o.events != [] && o.events[0].ToolSQL?)
  {
    var all := ops + [TurnOp(x, subtree)];
    forall i, j | 0 <= i < j < |ops| ensures TimeOf(ops[i]) <= TimeOf(ops[j]) {
      assert all[i] == ops[i] && all[j] == ops[j];
    }
    assert ops != [] ==> TimeOf(all[|ops| - 1]) <= TimeOf(all[|ops|]);
    RunKeepsCaches(st, ops, x.now);
    TurnServes(st, After(st, ops), x, subtree);
    if IsCacheHit(st, After(st, ops), x) {
      HitsAreNotBlocked(st, After(st, ops), x, subtree);
    }
  }

  lemma StepKeepsLive(st: Settings, t: Tables, op: Op, key: CacheKey)
    requires IsLive(t.results, key, TimeOf(op))
    ensures Stays(t.results, Step(st, t, op).results, key)
  {
    if op.TurnOp? {
      TurnKeepsLive(st, t, op.x, op.subtree, key);
    }
  }

  lemma AfterOneMore(st: Settings, ops: seq<Op>, m: nat)
    requires 0 < m <= |ops|
    ensures After(st, ops[..m]) == Step(st, After(st, ops[..m - 1]), ops[m - 1])
  {
    assert ops[..m][..|ops[..m]| - 1] == ops[..m - 1];
  }

  /** A result that is live throughout a stretch of a run stays in place. */
  lemma {:induction false} RunKeepsLive(st: Settings, ops: seq<Op>, n: nat, m: nat, key: CacheKey)
    requires n <= m <= |ops| && key in After(st, ops[..n]).results
    requires forall k :: n <= k < m ==> TimeOf(ops[k]) < After(st, ops[..n]).results[key].expiresAt
    ensures Stays(After(st, ops[..n]).results, After(st, ops[..m]).results, key)
    decreases m
  {
    if n < m {
      RunKeepsLive(st, ops, n, m - 1, key);
      AfterOneMore(st, ops, m);
      StepKeepsLive(st, After(st, ops[..m - 1]), ops[m - 1], key);
    }
  }
}
