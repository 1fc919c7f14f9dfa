/** What the user of a turn gets to see: the text, and whose rows: app/chat/pipeline.py with app/rbac and app/sqlsafety. */
module TurnAnswers {
  import opened Wrappers
  import opened Relational
  import opened Sql
  import opened Profiles
  import opened Injector
  import opened Scoping
  import opened ScopingTheorems
  import opened Guard
  import opened Fixer
  import opened Limiter
  import opened TablesRead
  import opened ResultCaching
  import opened Prose
  import opened Answerer
  import opened Events
  import opened Turns
  import opened TurnTheorems
  import opened TurnCaches

  // ---- The text ----

  /** All text of the events, in order. */
  function Texts(es: seq<PipelineEvent>): string {
    if es == [] then "" else (if es[0].TextDelta? then es[0].text else "") + Texts(es[1..])
  }

  lemma {:induction false} TextsAppend(a: seq<PipelineEvent>, b: seq<PipelineEvent>)
    ensures Texts(a + b) == Texts(a) + Texts(b)
  {
    if a == [] {
      assert a + b == b;
    } else {
      assert (a + b)[1..] == a[1..] + b;
      TextsAppend(a[1..], b);
    }
  }

  lemma TextsOne(e: PipelineEvent)
    ensures Texts([e]) == if e.TextDelta? then e.text else ""
  {
    assert [e][1..] == [];
  }

  lemma TailText(x: Turn, answer: string, table: string)
    ensures Texts(Tail(x, answer, table)) == answer + if table == "" then "" else "\n\n" + table
  {
    var more: seq<PipelineEvent> := if x.suggestions.Err? || x.suggestions.value == [] then []
                                    else [PipelineEvent.Suggestions(Take(MAX_SUGGESTIONS, x.suggestions.value))];
    var tables: seq<PipelineEvent> := if table == "" then [] else [TextDelta("\n\n" + table)];
    TextsOne(TextDelta(answer));
    TextsOne(TextDelta("\n\n" + table));
    TextsOne(PipelineEvent.Suggestions(Take(MAX_SUGGESTIONS, if x.suggestions.Ok? then x.suggestions.value else [])));
    TextsOne(Done);
    TextsAppend([TextDelta(answer)], tables);
    TextsAppend([TextDelta(answer)] + tables, more);
    TextsAppend([TextDelta(answer)] + tables + more, [Done]);
    assert Texts([TextDelta(answer)] + tables + more + [Done]) == answer + Texts(tables) + Texts(more) + Texts([Done]);
  }

  /** What the model wrote for a result; it is not asked about an empty one. */
  function Written(x: Turn, rowCount: nat): string {
    if rowCount == 0 || x.written.Err? then "" else Concat(x.written.value)
  }

  predicate AnswerSucceeds(x: Turn, rowCount: nat) {
    rowCount == 0 || x.written.Ok?
  }

  /** Splitting the text of a turn with a result gives back its answer. */
  ghost predicate TextSplits(x: Turn, es: seq<PipelineEvent>) {
    forall i :: 0 <= i < |es| && es[i].ToolResult? && AnswerSucceeds(x, es[i].payload.rowCount) ==>
      ProseOf(Texts(es)) == Answer(Written(x, es[i].payload.rowCount), es[i].payload.rowCount)
  }

  lemma NoResultSplits(x: Turn, es: seq<PipelineEvent>)
    requires NoResult(es)
    ensures TextSplits(x, es)
  {
  }

  lemma AnsweredSplits(st: Settings, start: Tables, x: Turn, p: Progress, f: Tree, columns: seq<string>, rows: seq<RowDict>, cached: bool)
    requires NoResult(p.events) && Texts(p.events) == "" && AnswerSucceeds(x, |rows|)
    ensures var es := Delivered(st, start, x, p, f, columns, rows, cached).events;
      && ProseOf(Texts(es)) == Answer(Written(x, |rows|), |rows|)
      && forall i :: 0 <= i < |es| && es[i].ToolResult? ==> es[i].payload.rowCount == |rows|
  {
    var result := ToolResult(ResultOf(f, columns, rows, cached));
    var q := p.(events := p.events + [result]);
    var written := Written(x, |rows|);
    var answer, table := Answer(written, |rows|), Table(st.printer, columns, rows);
    AnsweredTail(x, start, q, answer, table, |rows|, cached);
    assert Delivered(st, start, x, p, f, columns, rows, cached).events == q.events + Tail(x, answer, table);
    DeliveredText(x, p.events, result, answer, table);
    SplitRecoversAnswer(st.printer, written, columns, rows);
  }

  lemma DeliveredText(x: Turn, es: seq<PipelineEvent>, result: PipelineEvent, answer: string, table: string)
    requires NoResult(es) && Texts(es) == "" && result.ToolResult?
    ensures var all := es + [result] + Tail(x, answer, table);
      && Texts(all) == answer + (if table == "" then "" else "\n\n" + table)
      && forall i :: 0 <= i < |all| && all[i].ToolResult? ==> all[i] == result
  {
    var tail := Tail(x, answer, table);
    TextsAppend(es + [result], tail);
    TextsAppend(es, [result]);
    TextsOne(result);
    TailText(x, answer, table);
    assert NoResult(tail);
  }

  lemma CrashedSplits(st: Settings, start: Tables, x: Turn, p: Progress, f: Tree, columns: seq<string>, rows: seq<RowDict>, cached: bool)
    requires NoResult(p.events) && !AnswerSucceeds(x, |rows|)
    ensures TextSplits(x, Delivered(st, start, x, p, f, columns, rows, cached).events)
  {
    var es := Delivered(st, start, x, p, f, columns, rows, cached).events;
    assert es == p.events + [ToolResult(ResultOf(f, columns, rows, cached))] + [TextDelta(MSG_GENERIC_ERROR), Done];
    forall i | 0 <= i < |es| && es[i].ToolResult? ensures es[i].payload.rowCount == |rows| {
      assert i >= |p.events|;
    }
  }

  lemma DeliveredSplits(st: Settings, start: Tables, x: Turn, p: Progress, f: Tree, columns: seq<string>, rows: seq<RowDict>, cached: bool)
    requires NoResult(p.events) && Texts(p.events) == ""
    ensures TextSplits(x, Delivered(st, start, x, p, f, columns, rows, cached).events)
  {
    if AnswerSucceeds(x, |rows|) {
      AnsweredSplits(st, start, x, p, f, columns, rows, cached);
    } else {
      CrashedSplits(st, start, x, p, f, columns, rows, cached);
    }
  }

  lemma ExecutedSplits(st: Settings, start: Tables, x: Turn, p: Progress, f: Tree)
    requires NoResult(p.events) && Texts(p.events) == ""
    ensures TextSplits(x, Executed(st, start, x, p, f).events)
  {
    var key, t := KeyOf(st, x, f), p.tables.results;
    var q := p.(tables := p.tables.(results := AfterFetch(t, key, x.now)));
    if x.getFails {
      NoResultSplits(x, Executed(st, start, x, p, f).events);
    } else if IsLive(t, key, x.now) {
      DeliveredSplits(st, start, x, q, f, t[key].columns, t[key].rows, true);
    } else if st.backend(f, x.now).Ok? {
      var qr := st.backend(f, x.now).value;
      var r := q.(sent := q.sent + [f], tables := Remembered(st, start, x, q, f, qr));
      DeliveredSplits(st, start, x, r, f, qr.columns, qr.rows, false);
    } else {
      NoResultSplits(x, Executed(st, start, x, p, f).events);
    }
  }

  lemma CheckedSplits(st: Settings, start: Tables, x: Turn, subtree: Option<HierMap>, p: Progress, sql: SqlText)
    requires p.events == []
    ensures TextSplits(x, Checked(st, start, x, subtree, p, sql).events)
  {
    if Reaches(st, x, subtree, sql) {
      var q := Announced(st, x, subtree, p, sql);
      assert q.events == [q.events[0]];
      TextsOne(q.events[0]);
      CheckedIs(st, start, x, subtree, p, sql);
      ExecutedSplits(st, start, x, q, FinalOf(st, x, subtree, sql));
    } else {
      RefusedNoResult(st, start, x, subtree, p, sql);
      NoResultSplits(x, Checked(st, start, x, subtree, p, sql).events);
    }
  }

  lemma ResolvedSplits(st: Settings, start: Tables, x: Turn, subtree: Option<HierMap>, p: Progress)
    requires p.events == []
    ensures TextSplits(x, Resolve(st, start, x, subtree, p).events)
  {
    if Ready(st, x, p).Some? {
      ResolveIs(st, start, x, subtree, p);
      CheckedSplits(st, start, x, subtree, Ready(st, x, p).value, SqlFor(st, x, p));
    } else {
      UnreadyNoResult(st, start, x, subtree, p);
      NoResultSplits(x, Resolve(st, start, x, subtree, p).events);
    }
  }

  /** The prose the PDF export splits off the text of a turn is exactly the turn's answer. */
  lemma TurnTextSplits(st: Settings, start: Tables, x: Turn, subtree: Option<HierMap>)
    ensures TextSplits(x, RunTurn(st, start, x, subtree).events)
  {
    if !st.isGreeting(x.question) && x.rewritten.Ok? {
      ResolvedSplits(st, start, x, subtree, Asked(st, start, x));
    }
  }

  // ---- Fresh and cached turns look the same ----

  function Uncached(e: PipelineEvent): PipelineEvent {
    if e.ToolResult? then ToolResult(e.payload.(cached := false)) else e
  }

  /** Nothing in the turn fails that would keep a fresh result from staying in the cache. */
  predicate KeepsResult(x: Turn, p: Progress, qr: QueryResult) {
    !x.getFails && !x.putFails && !x.auditFails && (Stores(x, p, qr.rows) ==> StoredEmbedding(x).Ok? && !x.storeFails)
  }

  predicate LooksAlike(a: seq<PipelineEvent>, b: seq<PipelineEvent>) {
    |a| == |b| && forall i :: 0 <= i < |a| ==> Uncached(a[i]) == Uncached(b[i])
  }

  /** The events of a delivered result. */
  function DeliveredEvents(st: Settings, x: Turn, es: seq<PipelineEvent>, f: Tree, columns: seq<string>, rows: seq<RowDict>, cached: bool)
    : seq<PipelineEvent>
  {
    es + [ToolResult(ResultOf(f, columns, rows, cached))]
    + if AnswerSucceeds(x, |rows|) then Tail(x, Answer(Written(x, |rows|), |rows|), Table(st.printer, columns, rows))
      else [TextDelta(MSG_GENERIC_ERROR), Done]
  }

  lemma DeliveredIs(st: Settings, start: Tables, x: Turn, p: Progress, f: Tree, columns: seq<string>, rows: seq<RowDict>, cached: bool)
    ensures Delivered(st, start, x, p, f, columns, rows, cached).events == DeliveredEvents(st, x, p.events, f, columns, rows, cached)
  {
    if AnswerSucceeds(x, |rows|) {
      var q := p.(events := p.events + [ToolResult(ResultOf(f, columns, rows, cached))]);
      AnsweredTail(x, start, q, Answer(Written(x, |rows|), |rows|), Table(st.printer, columns, rows), |rows|, cached);
    }
  }

  lemma UncachedAlike(es: seq<PipelineEvent>, a: PipelineEvent, b: PipelineEvent, tail: seq<PipelineEvent>)
    requires Uncached(a) == Uncached(b)
    ensures LooksAlike(es + [a] + tail, es + [b] + tail)
  {
  }

  lemma SameTail(x: Turn, x': Turn, answer: string, table: string)
    requires x'.suggestions == x.suggestions
    ensures Tail(x', answer, table) == Tail(x, answer, table)
  {
  }

  /** A result and its cached form are delivered alike, but for the flag that says which it is. */
  lemma EventsAlike(st: Settings, x: Turn, x': Turn, es: seq<PipelineEvent>, f: Tree, columns: seq<string>, rows: seq<RowDict>)
    requires x'.written == x.written && x'.suggestions == x.suggestions
    ensures LooksAlike(DeliveredEvents(st, x', es, f, columns, JsonableRows(rows), true), DeliveredEvents(st, x, es, f, columns, rows, false))
  {
    JsonableIdempotent(rows);
    CachedTableSame(st.printer, columns, rows);
    var answer, table := Answer(Written(x, |rows|), |rows|), Table(st.printer, columns, rows);
    SameTail(x, x', answer, table);
    var tail := if AnswerSucceeds(x, |rows|) then Tail(x, answer, table) else [TextDelta(MSG_GENERIC_ERROR), Done];
    UncachedAlike(es, ToolResult(ResultOf(f, columns, JsonableRows(rows), true)), ToolResult(ResultOf(f, columns, rows, false)), tail);
  }

  /** What a fresh result leaves in the cache. */
  lemma FreshResultStays(st: Settings, start: Tables, x: Turn, p: Progress, f: Tree, qr: QueryResult)
    requires st.backend(f, x.now) == Ok(qr) && KeepsResult(x, p, qr) && !IsLive(p.tables.results, KeyOf(st, x, f), x.now)
    ensures var t, key := Executed(st, start, x, p, f).tables.results, KeyOf(st, x, f);
      key in t && t[key].columns == qr.columns && t[key].rows == JsonableRows(qr.rows) && t[key].expiresAt == x.now + st.ttl
  {
    var q := p.(tables := p.tables.(results := AfterFetch(p.tables.results, KeyOf(st, x, f), x.now)));
    var r := q.(sent := q.sent + [f], tables := Remembered(st, start, x, q, f, qr));
    DeliveredTables(st, start, x, r, f, qr.columns, qr.rows, false);
  }

  /** Executing the same statement for the same scope, first on the database and then, while the result lives, from the cache. */
  lemma CachedExecutionLooksSame(st: Settings, start: Tables, x: Turn, p: Progress, start': Tables, x': Turn, p': Progress, f: Tree)
    requires st.backend(f, x.now).Ok? && KeepsResult(x, p, st.backend(f, x.now).value)
    requires !IsLive(p.tables.results, KeyOf(st, x, f), x.now)
    requires Stays(Executed(st, start, x, p, f).tables.results, p'.tables.results, KeyOf(st, x, f)) && p'.events == p.events
    requires st.fingerprint(x'.user) == st.fingerprint(x.user) && x'.now < x.now + st.ttl && !x'.getFails
    requires x'.written == x.written && x'.suggestions == x.suggestions
    ensures LooksAlike(Executed(st, start', x', p', f).events, Executed(st, start, x, p, f).events)
  {
    var qr, key := st.backend(f, x.now).value, KeyOf(st, x, f);
    FreshResultStays(st, start, x, p, f, qr);
    assert IsLive(p'.tables.results, key, x'.now);
    var q := p.(tables := p.tables.(results := AfterFetch(p.tables.results, key, x.now)));
    var r := q.(sent := q.sent + [f], tables := Remembered(st, start, x, q, f, qr));
    var r' := p'.(tables := p'.tables.(results := AfterFetch(p'.tables.results, key, x'.now)));
    DeliveredIs(st, start, x, r, f, qr.columns, qr.rows, false);
    DeliveredIs(st, start', x', r', f, qr.columns, JsonableRows(qr.rows), true);
    EventsAlike(st, x, x', p.events, f, qr.columns, qr.rows);
  }

  /** Both turns execute the same statement, which comes from the same guarded SQL, for the same scope. */
  predicate SameStatement(st: Settings, start: Tables, x: Turn, subtree: Option<HierMap>, start': Tables, x': Turn, subtree': Option<HierMap>) {
    && Executes(st, start, x, subtree) && Executes(st, start', x', subtree')
    && SafeTree(st, SqlOf(st, start, x)) == SafeTree(st, SqlOf(st, start', x'))
    && FinalOf(st, x, subtree, SqlOf(st, start, x)) == FinalOf(st, x', subtree', SqlOf(st, start', x'))
    && st.fingerprint(x.user) == st.fingerprint(x'.user)
  }

  /** The turn asks the database, gets an answer, and nothing fails that would keep the answer from staying in the cache. */
  predicate AsksAndKeeps(st: Settings, start: Tables, x: Turn, subtree: Option<HierMap>) {
    && Executes(st, start, x, subtree)
    && var f := FinalOf(st, x, subtree, SqlOf(st, start, x));
    && !IsLive(start.results, KeyOf(st, x, f), x.now) && st.backend(f, x.now).Ok?
    && KeepsResult(x, ExecutedFrom(st, start, x, subtree), st.backend(f, x.now).value)
  }

  /**
   * In any run: if turn `i` asks the database and keeps the answer, and turn `j` executes the same statement for the same scope
   * while that answer lives, then, whatever turns, sweeps and invalidations lie between them, turn `j` delivers the same events as
   * turn `i` but for the flag that says that the result was cached, if the model writes the same text.
   */
  lemma CachedTurnLooksSame(st: Settings, ops: seq<Op>, i: nat, j: nat)
    requires InOrder(ops) && i < j < |ops| && ops[i].TurnOp? && ops[j].TurnOp?
    requires var x, x' := ops[i].x, ops[j].x;
      && SameStatement(st, After(st, ops[..i]), x, ops[i].subtree, After(st, ops[..j]), x', ops[j].subtree)
      && AsksAndKeeps(st, After(st, ops[..i]), x, ops[i].subtree)
      && x'.now < x.now + st.ttl && !x'.getFails && x'.written == x.written && x'.suggestions == x.suggestions
    ensures LooksAlike(RunTurn(st, After(st, ops[..j]), ops[j].x, ops[j].subtree).events,
                       RunTurn(st, After(st, ops[..i]), ops[i].x, ops[i].subtree).events)
  {
    var start, start', x, x' := After(st, ops[..i]), After(st, ops[..j]), ops[i].x, ops[j].x;
    TurnExecutes(st, start, x, ops[i].subtree);
    TurnExecutes(st, start', x', ops[j].subtree);
    var p, p' := ExecutedFrom(st, start, x, ops[i].subtree), ExecutedFrom(st, start', x', ops[j].subtree);
    var f := FinalOf(st, x, ops[i].subtree, SqlOf(st, start, x));
    var key := KeyOf(st, x, f);
    FreshResultStays(st, start, x, p, f, st.backend(f, x.now).value);
    AfterOneMore(st, ops, i + 1);
    RunKeepsLive(st, ops, i + 1, j, key);
    CachedExecutionLooksSame(st, start, x, p, start', x', p', f);
  }

  // ---- Whose rows ----

  /** When it answers at all, the analytics database evaluates statements on what it holds at that instant, and as its functions
      answer then (CURDATE() does not answer the same every day); `present` makes a driver result of a relation. */
  ghost predicate Evaluates(st: Settings, wAt: int -> World, dbAt: int -> Database, present: Option<Relation> -> Result<QueryResult, string>) {
    forall f, t :: st.backend(f, t).Ok? ==> st.backend(f, t) == present(Run(wAt(t), f, dbAt(t)))
  }

  /** The statements for which scoping is filtering and limiting is taking a prefix. */
  predicate IsPlain(cat: Catalog, p: Profile, subtree: HierMap, t: Tree) {
    && t.nodes != [] && NoShadowing(ScopeOf(cat, p, subtree), t) && NullSafe(ScopeOf(cat, p, subtree), t) && CtesNested(t)
    && (RootLimit(t.nodes[0]).Some? ==> RootLimit(t.nodes[0]).value.Plain?)
  }

  function FirstRows(cap: nat, r: Option<Relation>): Option<Relation> {
    match r case None => None case Some(x) => Some(Relation(x.cols, Take(cap, x.rows)))
  }

  /** The turn's SQL with its columns reconciled, as the guard passed it. */
  function SafeTree(st: Settings, sql: SqlText): Tree
    requires AssertSafe(st.cat, FixText(st.cat, sql)).Ok?
  {
    AssertSafe(st.cat, FixText(st.cat, sql)).value
  }

  /** The payload shows what the turn's SQL answered, at an instant within the lifetime, on the rows this user may see. */
  ghost predicate ShowsVisible(st: Settings, wAt: int -> World, dbAt: int -> Database, present: Option<Relation> -> Result<QueryResult, string>,
                               x: Turn, subtree: HierMap, sql: SqlText, payload: Payload, since: int)
  {
    && AssertSafe(st.cat, FixText(st.cat, sql)).Ok? && ServedAt(st, x.now, payload, since)
    && var t, scope, w := SafeTree(st, sql), ScopeOf(st.cat, x.user, subtree), wAt(since);
    && (IsPlain(st.cat, x.user, subtree, t) ==>
          st.backend(payload.sql, since) == present(FirstRows(st.rowCap, Run(w, t, VisibleDatabase(w, scope, dbAt(since))))))
    && (forall db :: LooksSame(w, scope, dbAt(since), db) ==> st.backend(payload.sql, since) == present(Run(w, payload.sql, db)))
    && (CtesKnown(st.cat, t) ==> forall db :: LooksSame(w, scope, Listed(st.cat, dbAt(since)), Listed(st.cat, db)) ==>
          st.backend(payload.sql, since) == present(Run(w, payload.sql, db)))
  }

  lemma VettedShows(st: Settings, wAt: int -> World, dbAt: int -> Database, present: Option<Relation> -> Result<QueryResult, string>,
                    x: Turn, subtree: HierMap, sql: SqlText, f: Tree, since: int)
    requires Evaluates(st, wAt, dbAt, present) && !x.user.IsUnrestricted() && Vetted(st, x, Some(subtree), sql, f)
    requires st.backend(f, since).Ok?
    ensures var t := SafeTree(st, sql); IsPlain(st.cat, x.user, subtree, t) ==>
      st.backend(f, since)
      == present(FirstRows(st.rowCap, Run(wAt(since), t, VisibleDatabase(wAt(since), ScopeOf(st.cat, x.user, subtree), dbAt(since)))))
  {
    var fixed := FixText(st.cat, sql);
    GuardMeaning(st.cat, fixed);
    if IsPlain(st.cat, x.user, subtree, fixed.first) {
      FinalQuery(wAt(since), st.cat, fixed, x.user, subtree, st.rowCap, dbAt(since));
    }
  }

  lemma VettedIndependent(st: Settings, wAt: int -> World, dbAt: int -> Database, present: Option<Relation> -> Result<QueryResult, string>,
                          x: Turn, subtree: HierMap, sql: SqlText, f: Tree, since: int, db: Database)
    requires Evaluates(st, wAt, dbAt, present) && !x.user.IsUnrestricted() && Vetted(st, x, Some(subtree), sql, f)
    requires st.backend(f, since).Ok?
    requires LooksSame(wAt(since), ScopeOf(st.cat, x.user, subtree), dbAt(since), db)
    ensures st.backend(f, since) == present(Run(wAt(since), f, db))
  {
    GuardMeaning(st.cat, FixText(st.cat, sql));
    var t := SafeTree(st, sql);
    AcceptedUnaffected(t, st.rowCap);
    ScopedResultIndependent(wAt(since), st.cat, x.user, subtree, LimitTree(t, st.rowCap), dbAt(since), db);
  }

  lemma VettedReadsListed(st: Settings, wAt: int -> World, dbAt: int -> Database, present: Option<Relation> -> Result<QueryResult, string>,
                          x: Turn, subtree: HierMap, sql: SqlText, f: Tree, since: int, db: Database)
    requires Evaluates(st, wAt, dbAt, present) && !x.user.IsUnrestricted() && Vetted(st, x, Some(subtree), sql, f)
    requires st.backend(f, since).Ok? && CtesKnown(st.cat, SafeTree(st, sql))
    requires LooksSame(wAt(since), ScopeOf(st.cat, x.user, subtree), Listed(st.cat, dbAt(since)), Listed(st.cat, db))
    ensures st.backend(f, since) == present(Run(wAt(since), f, db))
  {
    GuardMeaning(st.cat, FixText(st.cat, sql));
    GuardedReads(st.cat, FixText(st.cat, sql));
    ListedResultIndependent(wAt(since), st.cat, x.user, subtree, SafeTree(st, sql), st.rowCap, dbAt(since), db);
  }

  lemma VettedShowsVisible(st: Settings, wAt: int -> World, dbAt: int -> Database, present: Option<Relation> -> Result<QueryResult, string>,
                           x: Turn, subtree: HierMap, sql: SqlText, payload: Payload, since: int)
    requires Evaluates(st, wAt, dbAt, present) && !x.user.IsUnrestricted()
    requires Vetted(st, x, Some(subtree), sql, payload.sql) && ServedAt(st, x.now, payload, since)
    ensures ShowsVisible(st, wAt, dbAt, present, x, subtree, sql, payload, since)
  {
    VettedShows(st, wAt, dbAt, present, x, subtree, sql, payload.sql, since);
    var scope, w := ScopeOf(st.cat, x.user, subtree), wAt(since);
    forall db | LooksSame(w, scope, dbAt(since), db) ensures st.backend(payload.sql, since) == present(Run(w, payload.sql, db)) {
      VettedIndependent(st, wAt, dbAt, present, x, subtree, sql, payload.sql, since, db);
    }
    if CtesKnown(st.cat, SafeTree(st, sql)) {
      forall db | LooksSame(w, scope, Listed(st.cat, dbAt(since)), Listed(st.cat, db))
        ensures st.backend(payload.sql, since) == present(Run(w, payload.sql, db))
      {
        VettedReadsListed(st, wAt, dbAt, present, x, subtree, sql, payload.sql, since, db);
      }
    }
  }

  ghost predicate AllShowVisible(st: Settings, wAt: int -> World, dbAt: int -> Database, present: Option<Relation> -> Result<QueryResult, string>,
                                 x: Turn, subtree: Option<HierMap>, sql: SqlText, es: seq<PipelineEvent>)
  {
    forall i :: 0 <= i < |es| && es[i].ToolResult? ==>
      subtree.Some? && exists since :: ShowsVisible(st, wAt, dbAt, present, x, subtree.value, sql, es[i].payload, since)
  }

  /** Each result that a turn of a restricted user delivers, cached or fresh, shows what the user may see. */
  lemma TurnShows(st: Settings, start: Tables, x: Turn, subtree: Option<HierMap>, wAt: int -> World, dbAt: int -> Database,
                  present: Option<Relation> -> Result<QueryResult, string>)
    requires ResultsTrue(st, start.results, x.now) && Evaluates(st, wAt, dbAt, present) && !x.user.IsUnrestricted()
    ensures AllShowVisible(st, wAt, dbAt, present, x, subtree, SqlOf(st, start, x), RunTurn(st, start, x, subtree).events)
  {
    var es, sql := RunTurn(st, start, x, subtree).events, SqlOf(st, start, x);
    TurnTrace(st, start, x, subtree);
    TurnServes(st, start, x, subtree);
    forall i | 0 <= i < |es| && es[i].ToolResult?
      ensures subtree.Some? && exists since :: ShowsVisible(st, wAt, dbAt, present, x, subtree.value, sql, es[i].payload, since)
    {
      var payload := es[i].payload;
      assert Vetted(st, x, subtree, sql, payload.sql) && Served(st, x.now, payload);
      var since :| ServedAt(st, x.now, payload, since);
      VettedShowsVisible(st, wAt, dbAt, present, x, subtree.value, sql, payload, since);
    }
  }

  /**
   * End to end, for a restricted user, after any run: every result that a turn delivers, cached or fresh, was answered within the
   * lifetime to the turn's own SQL. If no join can null-extend a scoped table, no CTE is named like one and the LIMIT is plain, it is
   * the first `rowCap` rows of that SQL on the rows this user may see; whatever the SQL is, it does not depend on rows the user may
   * not see; and if names off the whitelist in CTE bodies are those of earlier CTEs, it does not depend on tables off the whitelist.
   */
  lemma TurnShowsVisibleRows(st: Settings, ops: seq<Op>, x: Turn, subtree: Option<HierMap>, wAt: int -> World, dbAt: int -> Database,
                             present: Option<Relation> -> Result<QueryResult, string>)
    requires InOrder(ops) && (ops != [] ==> TimeOf(ops[|ops| - 1]) <= x.now)
    requires Evaluates(st, wAt, dbAt, present) && !x.user.IsUnrestricted()
    ensures AllShowVisible(st, wAt, dbAt, present, x, subtree, SqlOf(st, After(st, ops), x), RunTurn(st, After(st, ops), x, subtree).events)
  {
    RunKeepsCaches(st, ops, x.now);
    TurnShows(st, After(st, ops), x, subtree, wAt, dbAt, present);
  }
}
