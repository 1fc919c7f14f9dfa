/** What the audit row of a turn says: `_audit` of app/chat/pipeline.py and its callers. */
module AuditTrail {
  import opened Wrappers
  import opened Sql
  import opened Profiles
  import opened Guard
  import opened Fixer
  import opened Limiter
  import opened QueryCaching
  import opened QuestionKeys
  import opened ResultCaching
  import opened Answerer
  import opened Events
  import opened Turns
  import opened CacheKeys

  /** The turn delivered a result of so many rows, from the result cache or not. */
  predicate Delivers(es: seq<PipelineEvent>, rowCount: nat, cached: bool) {
    exists i :: 0 <= i < |es| && es[i].ToolResult? && es[i].payload.rowCount == rowCount && es[i].payload.cached == cached
  }

  predicate EndsSaying(es: seq<PipelineEvent>, text: string) {
    |es| >= 2 && es[|es| - 2..] == [TextDelta(text), Done]
  }

  /** The status fits the end of the turn: a blocked or failed turn ended with the message for that, and counted no rows. A row count
      is that of the result the turn delivered, and the level names the result cache exactly if that came from there. */
  predicate FitsEvents(row: AuditRow, es: seq<PipelineEvent>) {
    && (row.status == Blocked ==> EndsSaying(es, MSG_BLOCKED_SQL) || EndsSaying(es, MSG_BLOCKED_RBAC))
    && (row.status == Failed ==> EndsSaying(es, MSG_GENERIC_ERROR) || EndsSaying(es, MSG_DB_ERROR))
    && (row.rowCount.Some? ==> row.status == Fine && Delivers(es, row.rowCount.value, row.level == Some(ResultLevel)))
  }

  /** A greeting, or a question that the model answers itself. */
  predicate NeedsNoSql(st: Settings, x: Turn) {
    st.isGreeting(x.question) || (x.plan.Ok? && x.plan.value.General?)
  }

  /** The turn leaves one more row, by its user for its question, with the resolved question if that differs and the statement that
      was to be executed, if it came that far, and where its SQL came
      from unless that is shadowed by the result cache. Only a turn that needs no SQL is fine without a row count. */
  predicate IsAudited(st: Settings, start: Tables, x: Turn, resolved: string, final: Option<Tree>, source: Option<Level>, o: Outcome) {
    x.auditFails
    || (|o.tables.audits| == |start.audits| + 1 && start.audits <= o.tables.audits
        && var row := o.tables.audits[|start.audits|];
           && row.user == x.user.userId && row.question == x.question
           && row.rewritten == (if resolved == x.question then None else Some(resolved))
           && row.final == final && FitsEvents(row, o.events)
           && (row.level == source || (row.rowCount.Some? && row.level == Some(ResultLevel)))
           && (row.status == Fine && row.rowCount.None? ==> NeedsNoSql(st, x)))
  }

  lemma EndedAudited(st: Settings, x: Turn, start: Tables, p: Progress, source: Option<Level>, row: AuditRow)
    requires row.level == source || (row.rowCount.Some? && row.level == Some(ResultLevel))
    requires p.tables.audits == start.audits && FitsEvents(row, p.events + [Done])
    requires row.status == Fine && row.rowCount.None? ==> NeedsNoSql(st, x)
    requires row.user == x.user.userId && row.question == x.question && row.final == p.final
    requires row.rewritten == (if p.rewritten == x.question then None else Some(p.rewritten))
    ensures IsAudited(st, start, x, p.rewritten, p.final, source, Ended(x, start, p, row))
  {
  }

  lemma SaidAudited(st: Settings, x: Turn, start: Tables, p: Progress, text: string, row: AuditRow)
    requires p.tables.audits == start.audits && row.rowCount.None? && (row.status == Fine ==> NeedsNoSql(st, x))
    requires row.status == Blocked ==> text == MSG_BLOCKED_SQL || text == MSG_BLOCKED_RBAC
    requires row.status == Failed ==> text == MSG_GENERIC_ERROR || text == MSG_DB_ERROR
    requires row.user == x.user.userId && row.question == x.question && row.final == p.final
    requires row.rewritten == (if p.rewritten == x.question then None else Some(p.rewritten))
    ensures IsAudited(st, start, x, p.rewritten, p.final, row.level, Ended(x, start, Say(p, text), row))
  {
    var es := Say(p, text).events + [Done];
    assert es[|es| - 2..] == [TextDelta(text), Done];
    EndedAudited(st, x, start, Say(p, text), row.level, row);
  }

  lemma CrashAudited(st: Settings, x: Turn, start: Tables, p: Progress)
    requires p.tables.audits == start.audits
    ensures IsAudited(st, start, x, p.rewritten, p.final, p.level, Crash(x, start, p))
  {
    SaidAudited(st, x, start, p, MSG_GENERIC_ERROR, AuditOf(x, Say(p, MSG_GENERIC_ERROR), Failed));
  }

  lemma DeliversMore(es: seq<PipelineEvent>, more: seq<PipelineEvent>, rowCount: nat, cached: bool)
    requires Delivers(es, rowCount, cached)
    ensures Delivers(es + more, rowCount, cached)
  {
    var i :| 0 <= i < |es| && es[i].ToolResult? && es[i].payload.rowCount == rowCount && es[i].payload.cached == cached;
    assert (es + more)[i] == es[i];
  }

  lemma AnsweredAudited(st: Settings, x: Turn, start: Tables, p: Progress, answer: string, table: string, rowCount: nat, cached: bool)
    requires p.tables.audits == start.audits && Delivers(p.events, rowCount, cached) && p.level != Some(ResultLevel)
    ensures IsAudited(st, start, x, p.rewritten, p.final, p.level, Answered(x, start, p, answer, table, rowCount, cached))
  {
    var q := Say(p, answer);
    var r := if table == "" then q else Say(q, "\n\n" + table);
    var s := WithSuggestions(x, r);
    var row := AuditOf(x, r, Fine).(level := if cached then Some(ResultLevel) else r.level, rowCount := Some(rowCount));
    DeliversMore(p.events, [TextDelta(answer)], rowCount, cached);
    DeliversMore(q.events, [TextDelta("\n\n" + table)], rowCount, cached);
    DeliversMore(r.events, s.events[|r.events|..], rowCount, cached);
    assert s.events == r.events + s.events[|r.events|..];
    DeliversMore(s.events, [Done], rowCount, cached);
    EndedAudited(st, x, start, s, p.level, row);
  }

  lemma DeliveredAudited(st: Settings, start: Tables, x: Turn, p: Progress, f: Tree, columns: seq<string>, rows: seq<RowDict>,
                         cached: bool)
    requires p.tables.audits == start.audits && p.level != Some(ResultLevel)
    ensures IsAudited(st, start, x, p.rewritten, p.final, p.level, Delivered(st, start, x, p, f, columns, rows, cached))
  {
    var e := ToolResult(Payload(f, columns, Take(PAYLOAD_ROWS, JsonableRows(rows)), |rows|, cached));
    var q := p.(events := p.events + [e]);
    assert q.events[|p.events|] == e;
    if rows != [] && x.written.Err? {
      CrashAudited(st, x, start, q);
    } else {
      AnsweredAudited(st, x, start, q, Answer(if rows == [] then "" else Concat(x.written.value), |rows|), Table(st.printer, columns, rows),
                      |rows|, cached);
    }
  }

  lemma ExecutedAudited(st: Settings, start: Tables, x: Turn, p: Progress, f: Tree)
    requires p.tables.audits == start.audits && p.level != Some(ResultLevel)
    ensures IsAudited(st, start, x, p.rewritten, p.final, p.level, Executed(st, start, x, p, f))
  {
    var key, t := KeyOf(st, x, f), p.tables.results;
    var q := p.(tables := p.tables.(results := AfterFetch(t, key, x.now)));
    if x.getFails {
      CrashAudited(st, x, start, p);
    } else if IsLive(t, key, x.now) {
      DeliveredAudited(st, start, x, q, f, t[key].columns, t[key].rows, true);
    } else {
      match st.backend(f, x.now)
      case Err(_) =>
        var sent := q.(sent := q.sent + [f]);
        SaidAudited(st, x, start, sent, MSG_DB_ERROR, AuditOf(x, Say(sent, MSG_DB_ERROR), Failed));
      case Ok(qr) =>
        var r := q.(sent := q.sent + [f], tables := Remembered(st, start, x, q, f, qr));
        DeliveredAudited(st, start, x, r, f, qr.columns, qr.rows, false);
    }
  }

  /** The statement a turn would execute, if its SQL passes guard and scope. */
  function FinalIf(st: Settings, x: Turn, subtree: Option<HierMap>, sql: SqlText): Option<Tree> {
    if Reaches(st, x, subtree, sql) then Some(FinalOf(st, x, subtree, sql)) else None
  }

  lemma CheckedAudited(st: Settings, start: Tables, x: Turn, subtree: Option<HierMap>, p: Progress, sql: SqlText)
    requires p.tables.audits == start.audits && p.final.None? && p.level != Some(ResultLevel)
    ensures IsAudited(st, start, x, p.rewritten, FinalIf(st, x, subtree, sql), p.level, Checked(st, start, x, subtree, p, sql))
  {
    if Reaches(st, x, subtree, sql) {
      CheckedIs(st, start, x, subtree, p, sql);
      ExecutedAudited(st, start, x, Announced(st, x, subtree, p, sql), FinalOf(st, x, subtree, sql));
    } else {
      var fixed := FixText(st.cat, sql);
      match AssertSafe(st.cat, fixed)
      case Err(_) =>
        var row := AuditOf(x, Say(p, MSG_BLOCKED_SQL), Blocked).(generated := Some(if p.generated.Some? then p.generated.value else fixed));
        SaidAudited(st, x, start, p, MSG_BLOCKED_SQL, row);
      case Ok(t) =>
        var q := p.(events := p.events + [ToolSQL(LimitTree(t, st.rowCap))]);
        if !x.user.IsUnrestricted() && subtree.None? {
          CrashAudited(st, x, start, q);
        } else {
          SaidAudited(st, x, start, q, MSG_BLOCKED_RBAC, AuditOf(x, Say(q, MSG_BLOCKED_RBAC), Blocked));
        }
    }
  }

  /** Where the SQL of a turn under way comes from. */
  function SourceOf(st: Settings, x: Turn, p: Progress): Option<Level> {
    if x.exactFails then None
    else if HitsExactly(p) then Some(ExactLevel)
    else if HitsNearby(st, x, p) then (if x.aliasFails then None else Some(SemanticLevel))
    else if x.plan.Ok? then Some(ModelLevel)
    else None
  }

  lemma UnreadyAudited(st: Settings, start: Tables, x: Turn, subtree: Option<HierMap>, p: Progress)
    requires p.tables.audits == start.audits && p.final.None? && Ready(st, x, p).None?
    requires p.level.None?
    ensures IsAudited(st, start, x, p.rewritten, None, SourceOf(st, x, p), Resolve(st, start, x, subtree, p))
  {
    if x.exactFails {
      CrashAudited(st, x, start, p);
    } else if HitsNearby(st, x, p) {
      CrashAudited(st, x, start, WithQueries(p, Bumped(p.tables.queries, Nearest(x).value.0)));
    } else if x.plan.Err? {
      CrashAudited(st, x, start, p);
    } else {
      var answer := x.plan.value.answer;
      SaidAudited(st, x, start, p, answer, AuditOf(x, Say(p, answer), Fine).(level := Some(ModelLevel)));
    }
  }

  lemma ResolvedAudited(st: Settings, start: Tables, x: Turn, subtree: Option<HierMap>, p: Progress)
    requires p.tables.audits == start.audits && p.final.None? && p.level.None?
    ensures IsAudited(st, start, x, p.rewritten, if Ready(st, x, p).Some? then FinalIf(st, x, subtree, SqlFor(st, x, p)) else None,
                      SourceOf(st, x, p), Resolve(st, start, x, subtree, p))
  {
    if Ready(st, x, p).Some? {
      ResolveIs(st, start, x, subtree, p);
      CheckedAudited(st, start, x, subtree, Ready(st, x, p).value, SqlFor(st, x, p));
    } else {
      UnreadyAudited(st, start, x, subtree, p);
    }
  }

  /** Where the SQL of a turn comes from: the row under the key of its resolved question, else a similar row, else the model. */
  ghost function SourceOfTurn(st: Settings, start: Tables, x: Turn): Option<Level> {
    if !GetsQuestion(st, x) || x.exactFails then None
    else if IsCached(start.queries, QuestionKey(x.rewritten.value)) then Some(ExactLevel)
    else if exists j :: IsSimilar(st, start.queries, x, j) then (if x.aliasFails then None else Some(SemanticLevel))
    else if x.plan.Ok? then Some(ModelLevel)
    else None
  }

  /** Every turn that can write its audit row writes one that tells the truth about it. */
  lemma TurnAudited(st: Settings, start: Tables, x: Turn, subtree: Option<HierMap>)
    ensures IsAudited(st, start, x, if st.isGreeting(x.question) || x.rewritten.Err? then x.question else x.rewritten.value,
                      if Executes(st, start, x, subtree) then Some(FinalOf(st, x, subtree, SqlOf(st, start, x))) else None,
                      SourceOfTurn(st, start, x), RunTurn(st, start, x, subtree))
  {
    var p := Begin(start, x);
    if st.isGreeting(x.question) {
      SaidAudited(st, x, start, p, GREETING_REPLY, AuditOf(x, Say(p, GREETING_REPLY), Fine));
    } else if x.rewritten.Err? {
      CrashAudited(st, x, start, p);
    } else {
      SimilarIs(st, start, x);
      ResolvedAudited(st, start, x, subtree, Asked(st, start, x));
    }
  }
}
