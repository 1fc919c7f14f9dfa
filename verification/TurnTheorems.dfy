/** What every chat turn, and every run of turns, guarantees: app/chat/pipeline.py. */
module TurnTheorems {
  import opened Wrappers
  import opened Sql
  import opened Profiles
  import opened Injector
  import opened Guard
  import opened Fixer
  import opened Limiter
  import opened QueryCaching
  import opened ResultCaching
  import opened Answerer
  import opened Events
  import opened UIStream
  import opened Turns

  // ---- The trace ----

  predicate NotDone(e: PipelineEvent) {
    !e.Done?
  }

  /** Exactly one Done, at the end. */
  predicate EndsOnce(es: seq<PipelineEvent>) {
    es != [] && es[|es| - 1].Done? && forall i :: 0 <= i < |es| - 1 ==> NotDone(es[i])
  }

  /** The statement is the limited and scoped form, for this user, of SQL that passed the guard. */
  predicate Vetted(st: Settings, x: Turn, subtree: Option<HierMap>, sql: SqlText, f: Tree) {
    Reaches(st, x, subtree, sql) && f == FinalOf(st, x, subtree, sql)
  }

  predicate Announces(st: Settings, sql: SqlText, t: Tree) {
    var safe := AssertSafe(st.cat, FixText(st.cat, sql));
    safe.Ok? && t == LimitTree(safe.value, st.rowCap)
  }

  /** At most the first three suggestions are passed on. */
  predicate FirstThree(x: Turn, e: PipelineEvent) {
    e.Suggestions? ==> x.suggestions.Ok? && |e.items| <= 3 && e.items <= x.suggestions.value && (|x.suggestions.value| >= 3 ==> |e.items| == 3)
  }

  ghost predicate Trace(st: Settings, start: Tables, x: Turn, subtree: Option<HierMap>, sql: SqlText, o: Outcome) {
    && EndsOnce(o.events) && ResultsFollowSql(o.events)
    && (forall i :: 0 <= i < |o.events| && o.events[i].ToolSQL? ==> Announces(st, sql, o.events[i].sql))
    && (forall i :: 0 <= i < |o.events| && o.events[i].ToolResult? ==> Vetted(st, x, subtree, sql, o.events[i].payload.sql))
    && (forall i :: 0 <= i < |o.events| ==> FirstThree(x, o.events[i]))
    && |o.sent| <= 1 && (forall i :: 0 <= i < |o.sent| ==> Vetted(st, x, subtree, sql, o.sent[i]))
    && (x.auditFails ==> o.tables == start)
    && (!x.auditFails ==> |o.tables.audits| == |start.audits| + 1 && start.audits <= o.tables.audits)
  }

  /** Nothing has been sent or delivered yet; `announced` says whether the SQL has been. */
  ghost predicate Underway(st: Settings, start: Tables, sql: SqlText, p: Progress, announced: bool) {
    && p.tables.audits == start.audits && p.sent == []
    && if announced then |p.events| == 1 && p.events[0].ToolSQL? && Announces(st, sql, p.events[0].sql) else p.events == []
  }

  ghost predicate Closable(st: Settings, start: Tables, x: Turn, subtree: Option<HierMap>, sql: SqlText, p: Progress) {
    && p.tables.audits == start.audits
    && (forall i :: 0 <= i < |p.events| ==> NotDone(p.events[i]) && FirstThree(x, p.events[i]))
    && ResultsFollowSql(p.events)
    && (forall i :: 0 <= i < |p.events| && p.events[i].ToolSQL? ==> Announces(st, sql, p.events[i].sql))
    && (forall i :: 0 <= i < |p.events| && p.events[i].ToolResult? ==> Vetted(st, x, subtree, sql, p.events[i].payload.sql))
    && |p.sent| <= 1 && (forall i :: 0 <= i < |p.sent| ==> Vetted(st, x, subtree, sql, p.sent[i]))
  }

  lemma FollowsMore(es: seq<PipelineEvent>, e: PipelineEvent)
    requires ResultsFollowSql(es) && !e.ToolResult?
    ensures ResultsFollowSql(es + [e])
  {
    var all := es + [e];
    forall i | 0 <= i < |all| && all[i].ToolResult? ensures exists j :: 0 <= j < i && all[j].ToolSQL? {
      assert es[i].ToolResult?;
      var j :| 0 <= j < i && es[j].ToolSQL?;
      assert all[j].ToolSQL?;
    }
  }

  lemma UnderwayClosable(st: Settings, start: Tables, x: Turn, subtree: Option<HierMap>, sql: SqlText, p: Progress, announced: bool)
    requires Underway(st, start, sql, p, announced)
    ensures Closable(st, start, x, subtree, sql, p)
  {
    assert |p.events| <= 1 && forall i :: 0 <= i < |p.events| ==> p.events[i].ToolSQL?;
  }

  lemma MoreEvents(st: Settings, start: Tables, x: Turn, subtree: Option<HierMap>, sql: SqlText, p: Progress, e: PipelineEvent)
    requires Closable(st, start, x, subtree, sql, p) && !e.Done? && !e.ToolResult? && !e.ToolSQL? && FirstThree(x, e)
    ensures Closable(st, start, x, subtree, sql, p.(events := p.events + [e]))
  {
    FollowsMore(p.events, e);
  }

  lemma EndTrace(st: Settings, start: Tables, x: Turn, subtree: Option<HierMap>, sql: SqlText, p: Progress, row: AuditRow)
    requires Closable(st, start, x, subtree, sql, p)
    ensures Trace(st, start, x, subtree, sql, Ended(x, start, p, row))
  {
    FollowsMore(p.events, Done);
  }

  lemma SayEndTrace(st: Settings, start: Tables, x: Turn, subtree: Option<HierMap>, sql: SqlText, p: Progress, text: string, row: AuditRow)
    requires Closable(st, start, x, subtree, sql, p)
    ensures Trace(st, start, x, subtree, sql, Ended(x, start, Say(p, text), row))
  {
    MoreEvents(st, start, x, subtree, sql, p, TextDelta(text));
    EndTrace(st, start, x, subtree, sql, Say(p, text), row);
  }

  lemma CrashTrace(st: Settings, start: Tables, x: Turn, subtree: Option<HierMap>, sql: SqlText, p: Progress)
    requires Closable(st, start, x, subtree, sql, p)
    ensures Trace(st, start, x, subtree, sql, Crash(x, start, p))
  {
    SayEndTrace(st, start, x, subtree, sql, p, MSG_GENERIC_ERROR, AuditOf(x, Say(p, MSG_GENERIC_ERROR), Failed));
  }

  lemma AnsweredTrace(st: Settings, start: Tables, x: Turn, subtree: Option<HierMap>, sql: SqlText, p: Progress, answer: string, table: string,
                      rowCount: nat, cached: bool)
    requires Closable(st, start, x, subtree, sql, p)
    ensures Trace(st, start, x, subtree, sql, Answered(x, start, p, answer, table, rowCount, cached))
  {
    MoreEvents(st, start, x, subtree, sql, p, TextDelta(answer));
    var q := Say(p, answer);
    MoreEvents(st, start, x, subtree, sql, q, TextDelta("\n\n" + table));
    var r := if table == "" then q else Say(q, "\n\n" + table);
    if x.suggestions.Ok? {
      MoreEvents(st, start, x, subtree, sql, r, PipelineEvent.Suggestions(Take(MAX_SUGGESTIONS, x.suggestions.value)));
    }
    var row := AuditOf(x, r, Fine).(level := if cached then Some(ResultLevel) else r.level, rowCount := Some(rowCount));
    EndTrace(st, start, x, subtree, sql, WithSuggestions(x, r), row);
  }

  lemma DeliveredTrace(st: Settings, start: Tables, x: Turn, subtree: Option<HierMap>, sql: SqlText, p: Progress, f: Tree,
                       columns: seq<string>, rows: seq<RowDict>, cached: bool)
    requires Closable(st, start, x, subtree, sql, p) && p.events != [] && p.events[0].ToolSQL? && Vetted(st, x, subtree, sql, f)
    ensures Trace(st, start, x, subtree, sql, Delivered(st, start, x, p, f, columns, rows, cached))
  {
    var e := ToolResult(Payload(f, columns, Take(PAYLOAD_ROWS, JsonableRows(rows)), |rows|, cached));
    var q := p.(events := p.events + [e]);
    assert Closable(st, start, x, subtree, sql, q) by {
      forall i | 0 <= i < |q.events| && q.events[i].ToolResult? ensures exists j :: 0 <= j < i && q.events[j].ToolSQL? {
        assert q.events[0].ToolSQL?;
      }
    }
    if rows != [] && x.written.Err? {
      CrashTrace(st, start, x, subtree, sql, q);
    } else {
      AnsweredTrace(st, start, x, subtree, sql, q, Answer(if rows == [] then "" else Concat(x.written.value), |rows|),
                    Table(st.printer, columns, rows), |rows|, cached);
    }
  }

  lemma SentClosable(st: Settings, start: Tables, x: Turn, subtree: Option<HierMap>, sql: SqlText, p: Progress, f: Tree, t: Tables)
    requires Underway(st, start, sql, p, true) && Vetted(st, x, subtree, sql, f) && t.audits == start.audits
    ensures Closable(st, start, x, subtree, sql, p.(sent := p.sent + [f], tables := t))
    ensures Closable(st, start, x, subtree, sql, p.(tables := t))
  {
    UnderwayClosable(st, start, x, subtree, sql, p, true);
    assert p.sent + [f] == [f];
  }

  lemma FreshTrace(st: Settings, start: Tables, x: Turn, subtree: Option<HierMap>, sql: SqlText, p: Progress, f: Tree, qr: QueryResult)
    requires Underway(st, start, sql, p, true) && Vetted(st, x, subtree, sql, f)
    ensures var r := p.(sent := p.sent + [f], tables := Remembered(st, start, x, p, f, qr));
      Trace(st, start, x, subtree, sql, Delivered(st, start, x, r, f, qr.columns, qr.rows, false))
  {
    var t := Remembered(st, start, x, p, f, qr);
    SentClosable(st, start, x, subtree, sql, p, f, t);
    DeliveredTrace(st, start, x, subtree, sql, p.(sent := p.sent + [f], tables := t), f, qr.columns, qr.rows, false);
  }

  lemma ExecutedTrace(st: Settings, start: Tables, x: Turn, subtree: Option<HierMap>, sql: SqlText, p: Progress, f: Tree)
    requires Underway(st, start, sql, p, true) && Vetted(st, x, subtree, sql, f)
    ensures Trace(st, start, x, subtree, sql, Executed(st, start, x, p, f))
  {
    var key, t := KeyOf(st, x, f), p.tables.results;
    var q := p.(tables := p.tables.(results := AfterFetch(t, key, x.now)));
    SentClosable(st, start, x, subtree, sql, p, f, p.tables);
    SentClosable(st, start, x, subtree, sql, p, f, q.tables);
    if x.getFails {
      CrashTrace(st, start, x, subtree, sql, p);
    } else if IsLive(t, key, x.now) {
      DeliveredTrace(st, start, x, subtree, sql, q, f, t[key].columns, t[key].rows, true);
    } else {
      match st.backend(f, x.now)
      case Err(_) =>
        var sent := q.(sent := q.sent + [f]);
        SayEndTrace(st, start, x, subtree, sql, sent, MSG_DB_ERROR, AuditOf(x, Say(sent, MSG_DB_ERROR), Failed));
      case Ok(qr) => FreshTrace(st, start, x, subtree, sql, q, f, qr);
    }
  }

  lemma ScopedTrace(st: Settings, start: Tables, x: Turn, subtree: Option<HierMap>, sql: SqlText, p: Progress, limited: Tree)
    requires Underway(st, start, sql, p, true) && Announces(st, sql, limited)
    ensures Trace(st, start, x, subtree, sql, Scoped(st, start, x, subtree, p, limited))
  {
    UnderwayClosable(st, start, x, subtree, sql, p, true);
    if !x.user.IsUnrestricted() && subtree.None? {
      CrashTrace(st, start, x, subtree, sql, p);
    } else {
      match ScopeTree(st.cat, x.user, HierOf(x, subtree), limited)
      case Err(_) => SayEndTrace(st, start, x, subtree, sql, p, MSG_BLOCKED_RBAC, AuditOf(x, Say(p, MSG_BLOCKED_RBAC), Blocked));
      case Ok(f) =>
        assert Vetted(st, x, subtree, sql, f);
        ExecutedTrace(st, start, x, subtree, sql, p.(final := Some(f)), f);
    }
  }

  lemma CheckedTrace(st: Settings, start: Tables, x: Turn, subtree: Option<HierMap>, p: Progress, sql: SqlText)
    requires Underway(st, start, sql, p, false)
    ensures Trace(st, start, x, subtree, sql, Checked(st, start, x, subtree, p, sql))
  {
    var fixed := FixText(st.cat, sql);
    UnderwayClosable(st, start, x, subtree, sql, p, false);
    match AssertSafe(st.cat, fixed)
    case Err(_) =>
      var row := AuditOf(x, Say(p, MSG_BLOCKED_SQL), Blocked).(generated := Some(if p.generated.Some? then p.generated.value else fixed));
      SayEndTrace(st, start, x, subtree, sql, p, MSG_BLOCKED_SQL, row);
    case Ok(t) =>
      var limited := LimitTree(t, st.rowCap);
      ScopedTrace(st, start, x, subtree, sql, p.(events := p.events + [ToolSQL(limited)]), limited);
  }

  lemma ResolveTrace(st: Settings, start: Tables, x: Turn, subtree: Option<HierMap>, p: Progress)
    requires Underway(st, start, SqlFor(st, x, p), p, false)
    ensures Trace(st, start, x, subtree, SqlFor(st, x, p), Resolve(st, start, x, subtree, p))
  {
    var sql := SqlFor(st, x, p);
    if x.exactFails {
      CrashTrace(st, start, x, subtree, sql, p);
    } else if HitsExactly(p) {
      CheckedTrace(st, start, x, subtree, AfterExactHit(p), sql);
    } else if HitsNearby(st, x, p) {
      var hit := Nearest(x).value.0;
      if x.aliasFails {
        CrashTrace(st, start, x, subtree, sql, WithQueries(p, Bumped(p.tables.queries, hit)));
      } else {
        CheckedTrace(st, start, x, subtree, AfterNearbyHit(p, hit), sql);
      }
    } else {
      match x.plan
      case Err(_) => CrashTrace(st, start, x, subtree, sql, p);
      case Ok(General(answer)) =>
        SayEndTrace(st, start, x, subtree, sql, p, answer, AuditOf(x, Say(p, answer), Fine).(level := Some(ModelLevel)));
      case Ok(Query(raw)) =>
        CheckedTrace(st, start, x, subtree, p.(generated := raw, level := Some(ModelLevel)), sql);
    }
  }

  /**
   * Whatever fails, a turn emits exactly one Done, as its last event; writes exactly one audit row, or, if that insert fails,
   * leaves no trace in the tables at all; sends the database at most one statement, namely the limited and scoped form, for this
   * user, of the turn's own SQL after it passed the guard; delivers only results of that statement, and none before announcing it.
   */
  lemma TurnTrace(st: Settings, start: Tables, x: Turn, subtree: Option<HierMap>)
    ensures Trace(st, start, x, subtree, SqlOf(st, start, x), RunTurn(st, start, x, subtree))
  {
    var p, sql := Begin(start, x), SqlOf(st, start, x);
    if st.isGreeting(x.question) {
      SayEndTrace(st, start, x, subtree, sql, p, GREETING_REPLY, AuditOf(x, Say(p, GREETING_REPLY), Fine));
    } else if x.rewritten.Err? {
      CrashTrace(st, start, x, subtree, sql, p);
    } else {
      ResolveTrace(st, start, x, subtree, Asked(st, start, x));
    }
  }

  /** So the stream of a turn announces every tool output it carries. */
  lemma TurnStream(st: Settings, start: Tables, x: Turn, subtree: Option<HierMap>)
    ensures var fs := StreamOf(RunTurn(st, start, x, subtree).events); WellFormed(fs) && AllAnnounced(fs)
  {
    TurnTrace(st, start, x, subtree);
    StreamWellFormed(RunTurn(st, start, x, subtree).events);
    OutputsAnnounced(RunTurn(st, start, x, subtree).events);
  }
}
