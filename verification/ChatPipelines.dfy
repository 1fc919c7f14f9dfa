/** The chat pipeline as it runs: `ChatPipeline` of app/chat/pipeline.py. The fields hold the generator's variables, and `events`
    what it has yielded. */
module ChatPipelines {
  import opened Wrappers
  import Characters
  import opened Relational
  import opened Sql
  import opened Profiles
  import opened Hierarchy
  import opened Injector
  import opened Guard
  import opened Fixer
  import opened Limiter
  import opened Templater
  import opened QueryCaching
  import opened ResultCaching
  import opened QuestionKeys
  import opened Answerer
  import opened Events
  import opened Turns
  import opened TurnTheorems
  import opened TurnCaches
  import opened TurnAnswers
  import opened Visibility

  class ChatPipeline {
    const st: Settings
    const queryCache: QueryCache
    const resultCache: ResultCache
    const hierarchy: SubtreeCache
    var audits: seq<AuditRow>
    var events: seq<PipelineEvent>
    var sent: seq<Tree>
    var rewritten: string
    var normalized: string
    var temporal: string
    var generated: Option<SqlText>
    var final: Option<Tree>
    var level: Option<Level>

    function View(): Tables
      reads this, queryCache, resultCache
    {
      Tables(queryCache.entries, resultCache.entries, audits)
    }

    function State(): Progress
      reads this, queryCache, resultCache
    {
      Progress(View(), events, sent, rewritten, normalized, temporal, generated, final, level)
    }

    function Out(): Outcome
      reads this, queryCache, resultCache
    {
      Outcome(View(), events, sent)
    }

    /** What every turn may rely on and leaves to the next one. */
    ghost predicate Valid(now: int)
      reads this, queryCache, resultCache
    {
      resultCache.Valid() && resultCache.clock <= now && QueriesSafe(st, queryCache.entries) && ResultsTrue(st, resultCache.entries, now)
    }

    /** The session can be rolled back to `start`. */
    ghost predicate CanRollBack(start: Tables, history: seq<ResultCaching.Event>)
      reads resultCache
    {
      resultCache.Valid() && Consistent(start.results, history, resultCache.clock)
    }

    constructor (st: Settings)
      ensures this.st == st && View() == Tables(map[], map[], []) && hierarchy.cache == map[]
      ensures fresh(queryCache) && fresh(resultCache) && fresh(hierarchy) && resultCache.Valid() && resultCache.clock == 0
      ensures forall now :: now >= 0 ==> Valid(now)
    {
      this.st := st;
      queryCache := new QueryCache();
      resultCache := new ResultCache();
      hierarchy := new SubtreeCache();
      audits, events, sent, rewritten, normalized, temporal := [], [], [], "", "", "";
      generated, final, level := None, None, None;
    }

    method Emit(e: PipelineEvent)
      modifies this`events
      ensures events == old(events) + [e]
    {
      events := events + [e];
    }

    /** `_safe_rollback`. */
    method Rollback(start: Tables, ghost history: seq<ResultCaching.Event>)
      requires CanRollBack(start, history)
      modifies this`audits, queryCache, resultCache
      ensures View() == start && CanRollBack(start, history) && resultCache.clock == old(resultCache.clock)
    {
      queryCache.Rollback(start.queries);
      resultCache.Rollback(start.results, history);
      audits := start.audits;
    }

    /** `_audit`, then the last event. */
    method End(x: Turn, start: Tables, ghost history: seq<ResultCaching.Event>, row: AuditRow)
      requires CanRollBack(start, history)
      modifies this`audits, this`events, queryCache, resultCache
      ensures Out() == Ended(x, start, old(State()), row)
      ensures CanRollBack(start, history) && resultCache.clock == old(resultCache.clock)
    {
      Audit(x, start, history, row);
      Emit(Done);
    }

    method Audit(x: Turn, start: Tables, ghost history: seq<ResultCaching.Event>, row: AuditRow)
      requires CanRollBack(start, history)
      modifies this`audits, queryCache, resultCache
      ensures View() == Audited(x, start, old(View()), row)
      ensures CanRollBack(start, history) && resultCache.clock == old(resultCache.clock)
    {
      if x.auditFails {
        Rollback(start, history);
      } else {
        audits := audits + [row];
      }
    }

    /** The row every terminal path starts from. */
    method AuditRowNow(x: Turn, status: Status) returns (row: AuditRow)
      ensures row == AuditOf(x, State(), status)
    {
      return AuditRow(x.user.userId, x.question, if rewritten != x.question then Some(rewritten) else None, generated, final, level,
                      None, status);
    }

    /** A text and the end of the turn. */
    method SayAndEnd(x: Turn, start: Tables, ghost history: seq<ResultCaching.Event>, text: string, status: Status)
      requires CanRollBack(start, history)
      modifies this`audits, this`events, queryCache, resultCache
      ensures Out() == Ended(x, start, Say(old(State()), text), AuditOf(x, Say(old(State()), text), status))
      ensures CanRollBack(start, history) && resultCache.clock == old(resultCache.clock)
    {
      Emit(TextDelta(text));
      var row := AuditRowNow(x, status);
      End(x, start, history, row);
    }

    method Fail(x: Turn, start: Tables, ghost history: seq<ResultCaching.Event>)
      requires CanRollBack(start, history)
      modifies this`audits, this`events, queryCache, resultCache
      ensures Out() == Crash(x, start, old(State()))
      ensures CanRollBack(start, history) && resultCache.clock == old(resultCache.clock)
    {
      SayAndEnd(x, start, history, MSG_GENERIC_ERROR, Failed);
    }

    // ---- The steps, last first ----

    /** The answer, then the table if there is one. */
    method SayAnswer(answer: string, table: string)
      modifies this`events
      ensures State() == var p := Say(old(State()), answer); if table == "" then p else Say(p, "\n\n" + table)
    {
      Emit(TextDelta(answer));
      if table != "" {
        Emit(TextDelta("\n\n" + table));
      }
    }

    /** The suggestions, and the last event. */
    method SuggestAndClose(x: Turn)
      modifies this`events
      ensures events == WithSuggestions(x, old(State())).events + [Done]
    {
      if x.suggestions.Ok? && x.suggestions.value != [] {
        Emit(PipelineEvent.Suggestions(Take(MAX_SUGGESTIONS, x.suggestions.value)));
      }
      Emit(Done);
    }

    /** The answer, the table, the audit row, the suggestions. */
    method FinishAnswer(x: Turn, start: Tables, ghost history: seq<ResultCaching.Event>, answer: string, table: string, rowCount: nat,
                        cached: bool)
      requires CanRollBack(start, history)
      modifies this, queryCache, resultCache
      ensures Out() == Answered(x, start, old(State()), answer, table, rowCount, cached)
      ensures CanRollBack(start, history) && resultCache.clock == old(resultCache.clock)
    {
      SayAnswer(answer, table);
      var row := AuditRowNow(x, Fine);
      row := row.(level := if cached then Some(ResultLevel) else level, rowCount := Some(rowCount));
      Audit(x, start, history, row);
      SuggestAndClose(x);
    }

    /** The result, then what is said about it. */
    method AnswerTurn(x: Turn, start: Tables, ghost history: seq<ResultCaching.Event>, f: Tree, columns: seq<string>, rows: seq<RowDict>,
                      cached: bool)
      requires CanRollBack(start, history)
      modifies this, queryCache, resultCache
      ensures Out() == Delivered(st, start, x, old(State()), f, columns, rows, cached)
      ensures CanRollBack(start, history) && resultCache.clock == old(resultCache.clock)
    {
      Emit(ToolResult(Payload(f, columns, Take(PAYLOAD_ROWS, JsonableRows(rows)), |rows|, cached)));
      if rows != [] && x.written.Err? {
        Fail(x, start, history);
        return;
      }
      var chunks := if rows == [] then [] else x.written.value;
      var answer := StreamAnswerText(chunks, |rows|);
      var table := RenderMarkdownTable(st.printer, columns, rows);
      assert Concat(chunks) == if rows == [] then "" else Concat(x.written.value);
      FinishAnswer(x, start, history, answer, table, |rows|, cached);
    }

    /** A fresh result is put into the result cache, and its query into the query cache. */
    method Remember(x: Turn, start: Tables, ghost history: seq<ResultCaching.Event>, f: Tree, qr: QueryResult)
      requires CanRollBack(start, history) && resultCache.clock == x.now
      modifies this`audits, queryCache, resultCache
      ensures View() == Remembered(st, start, x, old(State()), f, qr)
      ensures CanRollBack(start, history) && resultCache.clock == old(resultCache.clock)
    {
      if x.putFails {
        Rollback(start, history);
      } else {
        resultCache.Put(KeyOf(st, x, f), qr.columns, qr.rows, |qr.rows|, x.now, st.ttl);
      }
      if generated.Some? && |qr.rows| > 0 {
        var template, spec := ParameterizeSql(generated.value);
        var embedding := if x.embedding.Ok? then x.embedding else x.embeddedAgain;
        if embedding.Err? || x.storeFails {
          Rollback(start, history);
        } else {
          queryCache.Store(normalized, embedding.value, template, spec, temporal, x.user.userId);
        }
      }
    }

    /** The database. */
    method AskDatabase(x: Turn, start: Tables, ghost history: seq<ResultCaching.Event>, f: Tree)
      requires CanRollBack(start, history) && resultCache.clock == x.now
      modifies this, queryCache, resultCache
      ensures Out() == Asking(st, start, x, old(State()), f)
      ensures CanRollBack(start, history) && resultCache.clock <= x.now
    {
      sent := sent + [f];
      var answer := st.backend(f, x.now);
      if answer.Err? {
        SayAndEnd(x, start, history, MSG_DB_ERROR, Failed);
        return;
      }
      Remember(x, start, history, f, answer.value);
      AnswerTurn(x, start, history, f, answer.value.columns, answer.value.rows, false);
    }

    /** The result cache, or else the database. */
    method Execute(x: Turn, start: Tables, ghost history: seq<ResultCaching.Event>, f: Tree)
      requires CanRollBack(start, history) && resultCache.clock <= x.now
      modifies this, queryCache, resultCache
      ensures Out() == Executed(st, start, x, old(State()), f)
      ensures CanRollBack(start, history) && resultCache.clock <= x.now
    {
      if x.getFails {
        Fail(x, start, history);
        return;
      }
      var key := CacheKey(f, st.fingerprint(x.user));
      var hit := resultCache.Fetch(key, x.now);
      if hit.Some? {
        AnswerTurn(x, start, history, f, hit.value.columns, hit.value.rows, true);
        return;
      }
      AskDatabase(x, start, history, f);
    }

    /** The subtree, and scoping. */
    method ScopeAndExecute(x: Turn, start: Tables, ghost history: seq<ResultCaching.Event>, limited: Tree,
                           fetched: Option<seq<HierRow>>, ghost rowsAt: int -> seq<HierRow>) returns (ghost subtree: Option<HierMap>)
      requires CanRollBack(start, history) && resultCache.clock <= x.now
      requires hierarchy.Valid(rowsAt, x.now) && (fetched.Some? ==> fetched.value == rowsAt(x.now))
      modifies this, queryCache, resultCache, hierarchy
      ensures Out() == Scoped(st, start, x, subtree, old(State()), limited)
      ensures CanRollBack(start, history) && resultCache.clock <= x.now && hierarchy.Valid(rowsAt, x.now)
      ensures IsSubtreeOf(x, subtree, rowsAt)
    {
      var found: Option<HierMap> := None;
      if !x.user.IsUnrestricted() {
        found := hierarchy.GetSubtreeFor(x.user, x.now, fetched, rowsAt);
        if found.None? {
          Fail(x, start, history);
          return found;
        }
      }
      var scoped := ApplyScope(st.cat, limited, x.user, if found.Some? then found.value else map[]);
      if scoped.Err? {
        SayAndEnd(x, start, history, MSG_BLOCKED_RBAC, Blocked);
        return found;
      }
      final := Some(scoped.value);
      Execute(x, start, history, scoped.value);
      return found;
    }

    /** What is said and audited when the guard refuses. */
    method Refuse(x: Turn, start: Tables, ghost history: seq<ResultCaching.Event>, fixed: SqlText)
      requires CanRollBack(start, history)
      modifies this`audits, this`events, queryCache, resultCache
      ensures var p := Say(old(State()), MSG_BLOCKED_SQL);
        Out() == Ended(x, start, p, AuditOf(x, p, Blocked).(generated := Some(if p.generated.Some? then p.generated.value else fixed)))
      ensures CanRollBack(start, history) && resultCache.clock == old(resultCache.clock)
    {
      Emit(TextDelta(MSG_BLOCKED_SQL));
      var row := AuditRowNow(x, Blocked);
      End(x, start, history, row.(generated := Some(if generated.Some? then generated.value else fixed)));
    }

    /** The limiter; the limited statement is announced. */
    method AnnounceLimited(t: Tree) returns (limited: Tree)
      requires t.nodes != [] && !t.nodes[0].Statement?
      modifies this`events
      ensures limited == LimitTree(t, st.rowCap) && events == old(events) + [ToolSQL(limited)]
    {
      var a := new Ast.Parse(t);
      EnforceLimit(a, st.rowCap);
      limited := a.View();
      Emit(ToolSQL(limited));
    }

    /** The fixer, the guard and the limiter. */
    method CheckAndExecute(x: Turn, start: Tables, ghost history: seq<ResultCaching.Event>, sql: SqlText,
                           fetched: Option<seq<HierRow>>, ghost rowsAt: int -> seq<HierRow>) returns (ghost subtree: Option<HierMap>)
      requires CanRollBack(start, history) && resultCache.clock <= x.now
      requires hierarchy.Valid(rowsAt, x.now) && (fetched.Some? ==> fetched.value == rowsAt(x.now))
      modifies this, queryCache, resultCache, hierarchy
      ensures Out() == Checked(st, start, x, subtree, old(State()), sql)
      ensures CanRollBack(start, history) && resultCache.clock <= x.now && hierarchy.Valid(rowsAt, x.now)
      ensures IsSubtreeOf(x, subtree, rowsAt)
    {
      var fixed := FixColumnAliases(st.cat, sql);
      var safe := AssertSafe(st.cat, fixed);
      if safe.Err? {
        Refuse(x, start, history, fixed);
        return None;
      }
      GuardMeaning(st.cat, fixed);
      var limited := AnnounceLimited(safe.value);
      subtree := ScopeAndExecute(x, start, history, limited, fetched, rowsAt);
    }

    /** The model's plan. */
    method PlanAndExecute(x: Turn, start: Tables, ghost history: seq<ResultCaching.Event>,
                          fetched: Option<seq<HierRow>>, ghost rowsAt: int -> seq<HierRow>) returns (ghost subtree: Option<HierMap>)
      requires CanRollBack(start, history) && resultCache.clock <= x.now
      requires hierarchy.Valid(rowsAt, x.now) && (fetched.Some? ==> fetched.value == rowsAt(x.now))
      modifies this, queryCache, resultCache, hierarchy
      ensures Out() == Planned(st, start, x, subtree, old(State()))
      ensures CanRollBack(start, history) && resultCache.clock <= x.now && hierarchy.Valid(rowsAt, x.now)
      ensures IsSubtreeOf(x, subtree, rowsAt)
    {
      subtree := None;
      match x.plan {
        case Err(_) => Fail(x, start, history);
        case Ok(General(answer)) =>
          Emit(TextDelta(answer));
          var row := AuditRowNow(x, Fine);
          End(x, start, history, row.(level := Some(ModelLevel)));
        case Ok(Query(raw)) =>
          generated := raw;
          level := Some(ModelLevel);
          subtree := CheckAndExecute(x, start, history, if raw.Some? then raw.value else Unparseable(""), fetched, rowsAt);
      }
    }

    /** A cached template, bound for the question. */
    method BindAndExecute(x: Turn, start: Tables, ghost history: seq<ResultCaching.Event>, entry: CachedQuery,
                          fetched: Option<seq<HierRow>>, ghost rowsAt: int -> seq<HierRow>) returns (ghost subtree: Option<HierMap>)
      requires CanRollBack(start, history) && resultCache.clock <= x.now
      requires hierarchy.Valid(rowsAt, x.now) && (fetched.Some? ==> fetched.value == rowsAt(x.now))
      modifies this, queryCache, resultCache, hierarchy
      ensures Out() == FromCache(st, start, x, subtree, old(State()), entry)
      ensures CanRollBack(start, history) && resultCache.clock <= x.now && hierarchy.Valid(rowsAt, x.now)
      ensures IsSubtreeOf(x, subtree, rowsAt)
    {
      var sql := BindTemplate(entry.template, entry.spec, rewritten);
      subtree := CheckAndExecute(x, start, history, sql, fetched, rowsAt);
    }

    /** The two cache levels, or else the model. */
    method ResolveAndExecute(x: Turn, start: Tables, ghost history: seq<ResultCaching.Event>,
                             fetched: Option<seq<HierRow>>, ghost rowsAt: int -> seq<HierRow>) returns (ghost subtree: Option<HierMap>)
      requires CanRollBack(start, history) && resultCache.clock <= x.now
      requires hierarchy.Valid(rowsAt, x.now) && (fetched.Some? ==> fetched.value == rowsAt(x.now))
      modifies this, queryCache, resultCache, hierarchy
      ensures Out() == Resolve(st, start, x, subtree, old(State()))
      ensures CanRollBack(start, history) && resultCache.clock <= x.now && hierarchy.Valid(rowsAt, x.now)
      ensures IsSubtreeOf(x, subtree, rowsAt)
    {
      subtree := None;
      if x.exactFails {
        Fail(x, start, history);
        return;
      }
      var entry := queryCache.LookupExact(normalized);
      if entry.Some? {
        level := Some(ExactLevel);
        subtree := BindAndExecute(x, start, history, entry.value, fetched, rowsAt);
        return;
      }
      subtree := MissExactly(x, start, history, fetched, rowsAt);
    }

    /** The second cache level, or else the model. */
    method MissExactly(x: Turn, start: Tables, ghost history: seq<ResultCaching.Event>,
                       fetched: Option<seq<HierRow>>, ghost rowsAt: int -> seq<HierRow>) returns (ghost subtree: Option<HierMap>)
      requires !x.exactFails && !HitsExactly(State())
      requires CanRollBack(start, history) && resultCache.clock <= x.now
      requires hierarchy.Valid(rowsAt, x.now) && (fetched.Some? ==> fetched.value == rowsAt(x.now))
      modifies this, queryCache, resultCache, hierarchy
      ensures Out() == Resolve(st, start, x, subtree, old(State()))
      ensures CanRollBack(start, history) && resultCache.clock <= x.now && hierarchy.Valid(rowsAt, x.now)
      ensures IsSubtreeOf(x, subtree, rowsAt)
    {
      subtree := None;
      var near := if x.embedding.Ok? && x.nearest.Ok? then x.nearest.value else None;
      var hit := queryCache.LookupSemantic(near, temporal, st.threshold);
      if hit.Some? {
        if x.aliasFails {
          Fail(x, start, history);
          return;
        }
        queryCache.AddAlias(normalized, hit.value);
        level := Some(SemanticLevel);
        subtree := BindAndExecute(x, start, history, hit.value, fetched, rowsAt);
        return;
      }
      subtree := PlanAndExecute(x, start, history, fetched, rowsAt);
    }

    /** `run`, consumed to the end. `fetched` is what reading the hierarchy table would give, None if it raises; `subtree` is the
        subtree the turn worked with, None if it did not get that far. */
    method Run(x: Turn, fetched: Option<seq<HierRow>>, ghost rowsAt: int -> seq<HierRow>) returns (ghost subtree: Option<HierMap>)
      requires resultCache.Valid() && resultCache.clock <= x.now
      requires hierarchy.Valid(rowsAt, x.now) && (fetched.Some? ==> fetched.value == rowsAt(x.now))
      modifies this, queryCache, resultCache, hierarchy
      ensures Out() == RunTurn(st, old(View()), x, subtree)
      ensures resultCache.Valid() && resultCache.clock <= x.now && hierarchy.Valid(rowsAt, x.now) && IsSubtreeOf(x, subtree, rowsAt)
    {
      var start := Tables(queryCache.entries, resultCache.entries, audits);
      ghost var history := resultCache.history;
      Reset(x.question);
      if st.isGreeting(x.question) {
        subtree := None;
        SayAndEnd(x, start, history, GREETING_REPLY, Fine);
      } else if x.rewritten.Err? {
        subtree := None;
        Fail(x, start, history);
      } else {
        Ask(x.rewritten.value);
        subtree := ResolveAndExecute(x, start, history, fetched, rowsAt);
      }
    }

    method Reset(question: string)
      modifies this
      ensures State() == Progress(old(View()), [], [], question, "", "", None, None, None)
    {
      events, sent, rewritten, normalized, temporal := [], [], question, "", "";
      generated, final, level := None, None, None;
    }

    /** The resolved question, its key and its temporal intent. */
    method Ask(question: string)
      modifies this`rewritten, this`normalized, this`temporal
      ensures State() == Rewritten(st, old(State()), question)
    {
      rewritten := question;
      normalized := NormalizeQuestion(rewritten);
      temporal := st.temporalOf(rewritten);
    }

    /** A turn keeps what every turn may rely on, and its trace and what it serves are as promised. A restricted user is shown rows
        that the hierarchy table of less than ten minutes ago entitles the user to. */
    method Serve(x: Turn, fetched: Option<seq<HierRow>>, ghost rowsAt: int -> seq<HierRow>, ghost wAt: int -> World,
                 ghost dbAt: int -> Database, ghost present: Option<Relation> -> Result<QueryResult, string>)
      returns (out: seq<PipelineEvent>, ghost subtree: Option<HierMap>)
      requires Valid(x.now) && hierarchy.Valid(rowsAt, x.now) && (fetched.Some? ==> fetched.value == rowsAt(x.now))
      modifies this, queryCache, resultCache, hierarchy
      ensures Valid(x.now) && hierarchy.Valid(rowsAt, x.now) && IsSubtreeOf(x, subtree, rowsAt)
      ensures out == events && Promised(st, old(View()), x, subtree, wAt, dbAt, present, Out())
      ensures !x.user.IsUnrestricted() && subtree.Some? ==> exists t ::
        x.now - 600_000 < t <= x.now && (LevelIsFunctionOfCode(rowsAt(t)) ==> SeesAsOf(st.cat, x.user, subtree.value, rowsAt(t)))
    {
      ghost var start := View();
      subtree := Run(x, fetched, rowsAt);
      TurnPromises(st, start, x, subtree, wAt, dbAt, present);
      if !x.user.IsUnrestricted() && subtree.Some? {
        SeesRecent(st.cat, x.user, subtree.value, rowsAt, x.now);
      }
      return events, subtree;
    }
  }

  /** For a restricted user, the subtree of the user's code, as the table was less than ten minutes ago. */
  ghost predicate IsSubtreeOf(x: Turn, subtree: Option<HierMap>, rowsAt: int -> seq<HierRow>) {
    !x.user.IsUnrestricted() && subtree.Some? ==>
      RecentSubtree(rowsAt, x.now, Characters.Strip(x.user.sfCode), subtree.value)
  }

  /** The trace of a turn, where its results come from, and what they show a restricted user. */
  ghost predicate Promised(st: Settings, start: Tables, x: Turn, subtree: Option<HierMap>, wAt: int -> World, dbAt: int -> Database,
                           present: Option<Relation> -> Result<QueryResult, string>, o: Outcome)
  {
    && Trace(st, start, x, subtree, SqlOf(st, start, x), o) && AllServed(st, x.now, o.events)
    && (!x.user.IsUnrestricted() && Evaluates(st, wAt, dbAt, present) ==>
          AllShowVisible(st, wAt, dbAt, present, x, subtree, SqlOf(st, start, x), o.events))
  }

  /** What every turn promises that starts from caches of known origin. */
  lemma TurnPromises(st: Settings, start: Tables, x: Turn, subtree: Option<HierMap>, wAt: int -> World, dbAt: int -> Database,
                     present: Option<Relation> -> Result<QueryResult, string>)
    requires QueriesSafe(st, start.queries) && ResultsTrue(st, start.results, x.now)
    ensures var o := RunTurn(st, start, x, subtree);
      && QueriesSafe(st, o.tables.queries) && ResultsTrue(st, o.tables.results, x.now)
      && Promised(st, start, x, subtree, wAt, dbAt, present, o)
  {
    TurnKeepsQueries(st, start, x, subtree);
    TurnKeepsResults(st, start, x, subtree);
    TurnTrace(st, start, x, subtree);
    TurnServes(st, start, x, subtree);
    if !x.user.IsUnrestricted() && Evaluates(st, wAt, dbAt, present) {
      TurnShows(st, start, x, subtree, wAt, dbAt, present);
    }
  }
}
