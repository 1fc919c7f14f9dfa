/** Under which keys chat turns put cached queries and look them up, over every run: app/chat/pipeline.py. */
module CacheKeys {
  import opened Wrappers
  import opened Profiles
  import opened Guard
  import opened Fixer
  import opened Limiter
  import opened Sql
  import opened Templater
  import opened QueryCaching
  import opened QuestionKeys
  import opened ResultCaching
  import opened Events
  import opened Turns
  import opened TurnCaches

  // ---- Looking up ----

  /** A valid row has this key. */
  predicate IsCached(t: QueryTable, key: string) {
    key in t && t[key].isValid
  }

  /** The search works and finds row `j`, which is valid, similar enough, and of the same temporal intent as the resolved question. */
  predicate IsSimilar(st: Settings, t: QueryTable, x: Turn, j: string)
    requires x.rewritten.Ok?
  {
    && x.embedding.Ok? && x.nearest.Ok? && x.nearest.value.Some? && x.nearest.value.value.0 == j
    && IsCached(t, j) && x.nearest.value.value.1 >= st.threshold && t[j].temporal == st.temporalOf(x.rewritten.value)
  }

  /** The turn gets a resolved question. */
  predicate GetsQuestion(st: Settings, x: Turn) {
    !st.isGreeting(x.question) && x.rewritten.Ok?
  }

  /** The turn announces this SQL, reconciled and limited, or says that it is blocked. */
  predicate Announces(st: Settings, sql: SqlText, es: seq<PipelineEvent>) {
    match AssertSafe(st.cat, FixText(st.cat, sql))
    case Ok(t) => es != [] && es[0] == ToolSQL(LimitTree(t, st.rowCap))
    case Err(_) => es == [TextDelta(MSG_BLOCKED_SQL), Done]
  }

  lemma CheckedAnnouncesOrBlocks(st: Settings, start: Tables, x: Turn, subtree: Option<HierMap>, p: Progress, sql: SqlText)
    requires p.events == []
    ensures Announces(st, sql, Checked(st, start, x, subtree, p, sql).events)
  {
    if AssertSafe(st.cat, FixText(st.cat, sql)).Ok? {
      CheckedAnnounces(st, start, x, subtree, p, sql);
    }
  }

  /** A question with a valid row under its key is answered from that row; an exact hit is at the key of the resolved question. */
  lemma ExactHitServes(st: Settings, start: Tables, x: Turn, subtree: Option<HierMap>)
    requires GetsQuestion(st, x) && !x.exactFails && IsCached(start.queries, QuestionKey(x.rewritten.value))
    ensures var e := start.queries[QuestionKey(x.rewritten.value)];
      Announces(st, BoundText(e.template, e.spec, x.rewritten.value), RunTurn(st, start, x, subtree).events)
  {
    var p := Asked(st, start, x);
    var e := start.queries[QuestionKey(x.rewritten.value)];
    CheckedAnnouncesOrBlocks(st, start, x, subtree, AfterExactHit(p), BoundText(e.template, e.spec, x.rewritten.value));
  }

  /** Otherwise it is answered from the similar row, if there is one. */
  lemma SimilarHitServes(st: Settings, start: Tables, x: Turn, subtree: Option<HierMap>, j: string)
    requires GetsQuestion(st, x) && !x.exactFails && !x.aliasFails
    requires !IsCached(start.queries, QuestionKey(x.rewritten.value)) && IsSimilar(st, start.queries, x, j)
    ensures var e := start.queries[j]; Announces(st, BoundText(e.template, e.spec, x.rewritten.value), RunTurn(st, start, x, subtree).events)
  {
    var p := Asked(st, start, x);
    var e := start.queries[j];
    CheckedAnnouncesOrBlocks(st, start, x, subtree, AfterNearbyHit(p, j), BoundText(e.template, e.spec, x.rewritten.value));
  }

  /** Otherwise the model is asked: a plan without SQL is the whole answer, and one with SQL is announced. */
  lemma MissAsksModel(st: Settings, start: Tables, x: Turn, subtree: Option<HierMap>)
    requires GetsQuestion(st, x) && !x.exactFails && !IsCached(start.queries, QuestionKey(x.rewritten.value))
    requires forall j :: !IsSimilar(st, start.queries, x, j)
    ensures var es := RunTurn(st, start, x, subtree).events;
      match x.plan
      case Err(_) => es == [TextDelta(MSG_GENERIC_ERROR), Done]
      case Ok(General(answer)) => es == [TextDelta(answer), Done]
      case Ok(Query(sql)) => Announces(st, if sql.Some? then sql.value else Unparseable(""), es)
  {
    var p := Asked(st, start, x);
    SimilarIs(st, start, x);
    if x.plan.Ok? && x.plan.value.Query? {
      var sql := x.plan.value.sql;
      CheckedAnnouncesOrBlocks(st, start, x, subtree, p.(generated := sql, level := Some(ModelLevel)), GeneratedText(sql));
    }
  }

  lemma SimilarIs(st: Settings, start: Tables, x: Turn)
    requires x.rewritten.Ok?
    ensures HitsNearby(st, x, Asked(st, start, x)) <==> exists j :: IsSimilar(st, start.queries, x, j)
    ensures HitsNearby(st, x, Asked(st, start, x)) ==> IsSimilar(st, start.queries, x, Nearest(x).value.0)
  {
    if HitsNearby(st, x, Asked(st, start, x)) {
      assert IsSimilar(st, start.queries, x, Nearest(x).value.0);
    }
  }

  // ---- Writing ----

  /** The row is still there, with the same answer and as valid as before. */
  predicate IsKept(before: QueryTable, after: QueryTable, k: string) {
    k in before && k in after && Answers(after[k]) == Answers(before[k]) && after[k].isValid == before[k].isValid
  }

  /** The row answers with the template of the SQL that the model wrote for the resolved question; the SQL reached the database and
      found rows, and neither the key nor a similar question was cached. */
  ghost predicate IsStored(st: Settings, start: Tables, x: Turn, subtree: Option<HierMap>, e: CachedQuery)
    requires x.rewritten.Ok?
  {
    && !IsCached(start.queries, QuestionKey(x.rewritten.value)) && (forall j :: !IsSimilar(st, start.queries, x, j))
    && x.plan.Ok? && x.plan.value.Query? && x.plan.value.sql.Some?
    && IsOrigin(st, e.template, e.spec, x.plan.value.sql.value, x, subtree)
    && e.temporal == st.temporalOf(x.rewritten.value)
    && (if x.embedding.Ok? then e.embedding == x.embedding.value else x.embeddedAgain == Ok(e.embedding))
  }

  /** The row answers as the similar row did that the turn found. */
  ghost predicate IsAliased(st: Settings, start: Tables, x: Turn, e: CachedQuery)
    requires x.rewritten.Ok?
  {
    && QuestionKey(x.rewritten.value) !in start.queries
    && exists j :: IsSimilar(st, start.queries, x, j) && Answers(e) == Answers(start.queries[j])
  }

  /** The turn put the row there, under the key of its resolved question. */
  ghost predicate IsPut(st: Settings, start: Tables, x: Turn, subtree: Option<HierMap>, k: string, e: CachedQuery) {
    && GetsQuestion(st, x) && k == QuestionKey(x.rewritten.value) && e.isValid
    && (IsStored(st, start, x, subtree, e) || IsAliased(st, start, x, e))
  }

  /** Every row after a turn was there before or was put by the turn. */
  ghost predicate KeptOrPut(st: Settings, start: Tables, x: Turn, subtree: Option<HierMap>, after: QueryTable) {
    forall k :: k in after ==> IsKept(start.queries, after, k) || IsPut(st, start, x, subtree, k, after[k])
  }

  lemma HitWrites(st: Settings, start: Tables, x: Turn, subtree: Option<HierMap>, p: Progress, sql: SqlText)
    requires p.generated.None? && KeptOrPut(st, start, x, subtree, p.tables.queries)
    ensures KeptOrPut(st, start, x, subtree, Checked(st, start, x, subtree, p, sql).tables.queries)
  {
    CheckedQueries(st, start, x, subtree, p, sql);
  }

  lemma BumpKeeps(st: Settings, start: Tables, x: Turn, subtree: Option<HierMap>, key: string)
    requires key in start.queries
    ensures KeptOrPut(st, start, x, subtree, Bumped(start.queries, key))
  {
  }

  lemma ExactHitWrites(st: Settings, start: Tables, x: Turn, subtree: Option<HierMap>)
    requires GetsQuestion(st, x) && !x.exactFails && HitsExactly(Asked(st, start, x))
    ensures KeptOrPut(st, start, x, subtree, RunTurn(st, start, x, subtree).tables.queries)
  {
    var p := Asked(st, start, x);
    var e := start.queries[p.normalized];
    BumpKeeps(st, start, x, subtree, p.normalized);
    HitWrites(st, start, x, subtree, AfterExactHit(p), BoundText(e.template, e.spec, p.rewritten));
  }

  lemma AliasRows(t: QueryTable, key: string, j: string, k: string)
    requires j in t && k in WithAlias(Bumped(t, j), key, Bumped(t, j)[j])
    ensures var after := WithAlias(Bumped(t, j), key, Bumped(t, j)[j]);
      IsKept(t, after, k) || (k == key && key !in t && after[k].isValid && Answers(after[k]) == Answers(t[j]))
  {
  }

  lemma AliasWrites(st: Settings, start: Tables, x: Turn, subtree: Option<HierMap>, j: string)
    requires GetsQuestion(st, x) && IsSimilar(st, start.queries, x, j)
    ensures var key, bumped := QuestionKey(x.rewritten.value), Bumped(start.queries, j);
      KeptOrPut(st, start, x, subtree, WithAlias(bumped, key, bumped[j]))
  {
    var key, bumped := QuestionKey(x.rewritten.value), Bumped(start.queries, j);
    var after := WithAlias(bumped, key, bumped[j]);
    forall k | k in after ensures IsKept(start.queries, after, k) || IsPut(st, start, x, subtree, k, after[k]) {
      AliasRows(start.queries, key, j, k);
    }
  }

  lemma SimilarHitWrites(st: Settings, start: Tables, x: Turn, subtree: Option<HierMap>)
    requires GetsQuestion(st, x) && !x.exactFails && !HitsExactly(Asked(st, start, x)) && HitsNearby(st, x, Asked(st, start, x))
    ensures KeptOrPut(st, start, x, subtree, RunTurn(st, start, x, subtree).tables.queries)
  {
    var p, j := Asked(st, start, x), Nearest(x).value.0;
    SimilarIs(st, start, x);
    AliasWrites(st, start, x, subtree, j);
    BumpKeeps(st, start, x, subtree, j);
    if !x.aliasFails {
      var e := start.queries[j];
      HitWrites(st, start, x, subtree, AfterNearbyHit(p, j), BoundText(e.template, e.spec, p.rewritten));
    }
  }

  lemma StoreWrites(st: Settings, start: Tables, x: Turn, subtree: Option<HierMap>)
    requires GetsQuestion(st, x) && !HitsExactly(Asked(st, start, x)) && !HitsNearby(st, x, Asked(st, start, x))
    requires PlanIsStored(st, x, subtree, start.results)
    ensures KeptOrPut(st, start, x, subtree, StoredUnder(x, start.queries, Asked(st, start, x), x.plan.value.sql.value))
  {
    var raw, key := x.plan.value.sql.value, QuestionKey(x.rewritten.value);
    var after := StoredUnder(x, start.queries, Asked(st, start, x), raw);
    SimilarIs(st, start, x);
    assert IsOrigin(st, after[key].template, after[key].spec, raw, x, subtree);
    assert IsStored(st, start, x, subtree, after[key]);
  }

  lemma MissWrites(st: Settings, start: Tables, x: Turn, subtree: Option<HierMap>)
    requires GetsQuestion(st, x) && !x.exactFails && !HitsExactly(Asked(st, start, x)) && !HitsNearby(st, x, Asked(st, start, x))
    ensures KeptOrPut(st, start, x, subtree, RunTurn(st, start, x, subtree).tables.queries)
  {
    var p := Asked(st, start, x);
    PlannedQueries(st, start, x, subtree, p);
    assert RunTurn(st, start, x, subtree) == Planned(st, start, x, subtree, p);
    if PlanIsStored(st, x, subtree, start.results) {
      StoreWrites(st, start, x, subtree);
    }
  }

  /** A turn writes under the key of its resolved question only, and only what it stores or aliases. */
  lemma TurnWrites(st: Settings, start: Tables, x: Turn, subtree: Option<HierMap>)
    ensures KeptOrPut(st, start, x, subtree, RunTurn(st, start, x, subtree).tables.queries)
  {
    if GetsQuestion(st, x) && !x.exactFails {
      if HitsExactly(Asked(st, start, x)) {
        ExactHitWrites(st, start, x, subtree);
      } else if HitsNearby(st, x, Asked(st, start, x)) {
        SimilarHitWrites(st, start, x, subtree);
      } else {
        MissWrites(st, start, x, subtree);
      }
    }
  }

  /** What it takes to store a query: neither the key nor a similar question is cached, the model wrote SQL that reaches the database
      now and finds rows, and there is an embedding. Nothing of the storing fails. */
  ghost predicate CanStore(st: Settings, start: Tables, x: Turn, subtree: Option<HierMap>) {
    && GetsQuestion(st, x) && !IsCached(start.queries, QuestionKey(x.rewritten.value))
    && (forall j :: !IsSimilar(st, start.queries, x, j))
    && x.plan.Ok? && x.plan.value.Query? && x.plan.value.sql.Some? && Reaches(st, x, subtree, x.plan.value.sql.value)
    && (x.embedding.Ok? || x.embeddedAgain.Ok?)
    && !x.exactFails && !x.getFails && !x.storeFails && !x.auditFails
    && var f := FinalOf(st, x, subtree, x.plan.value.sql.value);
       && !IsLive(start.results, CacheKey(f, st.fingerprint(x.user)), x.now)
       && st.backend(f, x.now).Ok? && st.backend(f, x.now).value.rows != []
  }

  /** Such a turn stores its query under the key of its resolved question. */
  lemma QueryIsStored(st: Settings, start: Tables, x: Turn, subtree: Option<HierMap>)
    requires CanStore(st, start, x, subtree)
    ensures var key, after := QuestionKey(x.rewritten.value), RunTurn(st, start, x, subtree).tables.queries;
      key in after && after[key].isValid && IsStored(st, start, x, subtree, after[key])
  {
    SimilarIs(st, start, x);
    assert StoresQuery(st, start, x, subtree);
    StoredExactlyWhen(st, start, x, subtree);
    var raw, key := x.plan.value.sql.value, QuestionKey(x.rewritten.value);
    var after := StoredUnder(x, start.queries, Asked(st, start, x), raw);
    assert IsOrigin(st, after[key].template, after[key].spec, raw, x, subtree);
  }

  // ---- Results ----

  /** The row was there before. */
  predicate WasThere(before: ResultTable, after: ResultTable, key: CacheKey) {
    key in before && key in after && after[key] == before[key]
  }

  /** The result the database gives now to the turn's statement, under the statement and the fingerprint of the turn's user. */
  predicate IsFreshResult(st: Settings, x: Turn, f: Tree, key: CacheKey, e: ResultCaching.Entry) {
    && key.sql == f && key.fingerprint == st.fingerprint(x.user) && e.expiresAt == x.now + st.ttl
    && st.backend(f, x.now).Ok? && e.columns == st.backend(f, x.now).value.columns
    && e.rows == JsonableRows(st.backend(f, x.now).value.rows)
  }

  predicate ResultsPut(st: Settings, start: Tables, x: Turn, f: Tree, after: ResultTable) {
    forall key :: key in after ==> WasThere(start.results, after, key) || IsFreshResult(st, x, f, key, after[key])
  }

  lemma ExecutedPuts(st: Settings, start: Tables, x: Turn, p: Progress, f: Tree)
    requires p.tables.results == start.results
    ensures ResultsPut(st, start, x, f, Executed(st, start, x, p, f).tables.results)
  {
    var own, t := KeyOf(st, x, f), p.tables.results;
    var q := p.(tables := p.tables.(results := AfterFetch(t, own, x.now)));
    if !x.getFails {
      if IsLive(t, own, x.now) {
        DeliveredTables(st, start, x, q, f, t[own].columns, t[own].rows, true);
      } else if st.backend(f, x.now).Ok? {
        var qr := st.backend(f, x.now).value;
        var r := Remembered(st, start, x, q, f, qr);
        assert ResultsPut(st, start, x, f, r.results);
        DeliveredTables(st, start, x, q.(sent := q.sent + [f], tables := r), f, qr.columns, qr.rows, false);
      }
    }
  }

  /** A turn puts at most the fresh result of its own statement, under the statement and its user's fingerprint. */
  lemma TurnPutsResult(st: Settings, start: Tables, x: Turn, subtree: Option<HierMap>, key: CacheKey)
    requires key in RunTurn(st, start, x, subtree).tables.results
    ensures var after := RunTurn(st, start, x, subtree).tables.results;
      || WasThere(start.results, after, key)
      || (Executes(st, start, x, subtree)
          && IsFreshResult(st, x, FinalOf(st, x, subtree, SqlOf(st, start, x)), key, after[key]))
  {
    if Executes(st, start, x, subtree) {
      TurnExecutes(st, start, x, subtree);
      ExecutedPuts(st, start, x, ExecutedFrom(st, start, x, subtree), FinalOf(st, x, subtree, SqlOf(st, start, x)));
    } else {
      IdleKeepsResults(st, start, x, subtree);
    }
  }

  // ---- Runs ----

  /** A turn whose resolved question has this key. */
  predicate AsksUnder(st: Settings, op: Op, k: string) {
    op.TurnOp? && GetsQuestion(st, op.x) && QuestionKey(op.x.rewritten.value) == k
  }

  ghost predicate Puts(st: Settings, start: Tables, x: Turn, subtree: Option<HierMap>, k: string, answer: (SqlText, Spec, string)) {
    exists e :: IsPut(st, start, x, subtree, k, e) && Answers(e) == answer
  }

  /** The turn at position `i` of the run put this answer under this key, which is that of its resolved question. */
  ghost predicate PutAt(st: Settings, ops: seq<Op>, k: string, answer: (SqlText, Spec, string), i: nat) {
    i < |ops| && AsksUnder(st, ops[i], k) && Puts(st, After(st, ops[..i]), ops[i].x, ops[i].subtree, k, answer)
  }

  ghost predicate WasPut(st: Settings, ops: seq<Op>, k: string, answer: (SqlText, Spec, string)) {
    exists i: nat :: PutAt(st, ops, k, answer, i)
  }

  lemma PutBefore(st: Settings, ops: seq<Op>, n: nat, k: string, answer: (SqlText, Spec, string))
    requires n <= |ops| && WasPut(st, ops[..n], k, answer)
    ensures WasPut(st, ops, k, answer)
  {
    var i: nat :| PutAt(st, ops[..n], k, answer, i);
    assert ops[..n][..i] == ops[..i] && ops[..n][i] == ops[i];
    assert PutAt(st, ops, k, answer, i);
  }

  lemma TurnPuts(st: Settings, start: Tables, x: Turn, subtree: Option<HierMap>, k: string)
    requires k in RunTurn(st, start, x, subtree).tables.queries
    ensures var answer := Answers(RunTurn(st, start, x, subtree).tables.queries[k]);
      || (k in start.queries && Answers(start.queries[k]) == answer)
      || (AsksUnder(st, TurnOp(x, subtree), k) && Puts(st, start, x, subtree, k, answer))
  {
    TurnWrites(st, start, x, subtree);
  }

  /** Every row of a run was put, with the answer it has, by a turn of the run whose resolved question has this key. */
  lemma {:induction false} EveryKeyWasPut(st: Settings, ops: seq<Op>, k: string)
    requires k in After(st, ops).queries
    ensures WasPut(st, ops, k, Answers(After(st, ops).queries[k]))
  {
    var n := |ops| - 1;
    var before, op, answer := After(st, ops[..n]), ops[n], Answers(After(st, ops).queries[k]);
    if op.TurnOp? {
      TurnPuts(st, before, op.x, op.subtree, k);
    }
    if k in before.queries && Answers(before.queries[k]) == answer {
      EveryKeyWasPut(st, ops[..n], k);
      PutBefore(st, ops, n, k, answer);
    } else {
      assert PutAt(st, ops, k, answer, n);
    }
  }

  /** After any run, an exact hit is answered with what a turn of the run put there whose resolved question has the same key. */
  lemma HitsShareKey(st: Settings, ops: seq<Op>, x: Turn, subtree: Option<HierMap>)
    requires GetsQuestion(st, x) && !x.exactFails && IsCached(After(st, ops).queries, QuestionKey(x.rewritten.value))
    ensures exists i: nat, answer :: PutAt(st, ops, QuestionKey(x.rewritten.value), answer, i)
              && Announces(st, BoundText(answer.0, answer.1, x.rewritten.value), RunTurn(st, After(st, ops), x, subtree).events)
  {
    var k := QuestionKey(x.rewritten.value);
    var answer := Answers(After(st, ops).queries[k]);
    EveryKeyWasPut(st, ops, k);
    var i: nat :| PutAt(st, ops, k, answer, i);
    ExactHitServes(st, After(st, ops), x, subtree);
  }
}
