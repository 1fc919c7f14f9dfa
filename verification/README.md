# Verified model of the analytics chat backend

The backend answers business questions in natural language. A question becomes SQL, written by a language model or taken
from a query cache. The SQL is reconciled, guarded, limited and rewritten so that a user sees only the rows of the user's
place in the sales hierarchy. It is run or served from a result cache, and the answer is streamed with a table. Around
this sit a rate limiter, a thread store and the text filters. This project models that code in Dafny and proves what it
guarantees.

Three groups of files:

- **SQL rewriting.** `Sql` is a syntax of SELECT, UNION, joins, derived tables, subqueries, CTEs and LIMIT, with an
  evaluator over a database with NULLs. `Injector`, `Limiter`, `Fixer`, `Guard` and `Templater` rewrite such trees in
  place, each proved against a function on trees; `Requalified` says which columns the fixer requalifies, `Verdicts` is the
  guard behind the fixer, `TablesRead` what the guard's verdict says about tables. `Relational` and `SqlFacts` hold facts
  about joins and evaluation, `Scoping`, `ScopingTheorems` and `LeftJoins` what scoping means, `Hierarchy`, `Profiles`,
  `ScopeColumns`, `Visibility` and `Fingerprints` where the scope comes from and which rows it leaves.
- **State machines.** `QueryCaching`, `ResultCaching`, `RateLimit`, `UIStream` and `Threads` are classes whose methods are
  proved against functions of their state. `Turns` specifies a whole chat turn, `ChatPipelines` is the pipeline proved
  against it, and `TurnTheorems`, `TurnCaches`, `CacheKeys`, `TurnAnswers` and `AuditTrail` prove what every turn and
  every run guarantees.
- **Text.** `Regrouping` (digit groups, against the backtracking of the regular expression), `Normalizer`,
  `QuestionKeys` and `PlainQuestions` (cache keys), `Answerer`, `Scrubbing` and `Prose` (answer, table, and the splitter that
  undoes them), `DataLines` and `Spans` (what the scrubber removes and what it can leave), `ShownCells`, `Totals` and
  `ReportedTotals`.

`dafny verify dfyconfig.toml` checks everything.

## How to read it

- A parsed statement is an arena of nodes, numbered as a traversal meets them; a nested query has a larger number than the
  query around it. The passes overwrite nodes, columns or literals of the `Ast` object in place.
- The database leaves open, in `World`, how strings compare, what functions return, and what grouping and ordering do;
  theorems hold for every choice.
- A chat turn is a function of the tables, the request, and what each foreign call returns or raises. A session rollback
  restores all tables to what they were when the turn began.

## Where the code and its documentation differ

- The rate limiter's documentation has a limit that is not positive answered with a wait of one second; the request that
  opens a window is answered with none (`RateLimit.NonPositiveLimitBlocks`). The bound on admissions in a minute is 2L - 1
  and is reached.
- `enforce_limit` replaces a LIMIT that is not a plain integer, so the capped result need not be a prefix of the
  statement's own; `Limiter.LimitIsPrefix` says exactly when it is.
- Scoping a statement with an outer join can lose rows of the other side (`LeftJoins.LeftJoinLosesUnmatchedRow`), but not
  when no join can null-extend a scoped table (`ScopingTheorems.ScopingIsFiltering`). `ScopingTheorems.OuterJoinStatement`
  says exactly when rows are lost. No kind of join shows a hidden row.
- The guard is documented to let only whitelisted tables be read. It matches the names of CTEs wherever they occur, but in its own
  body a CTE's name means a table, so other tables can be read (`TablesRead.OwnNameReadsTable`); `TablesRead.GuardedReads` says
  exactly when they are not.
- The guard is documented to let single statements pass. When it rewrites something, the fixer returns only the first of
  several statements, so text that the guard refuses can pass once fixed: `Verdicts.FixedVerdict` says exactly when. The later
  statements are dropped.
- "show me sales today" and "can you tell me the revenue today" are documented to share a cache key. They do not, "the" being no
  filler (`PlainQuestions.DocumentedParaphraseDiffers`); `PlainQuestions.WordsKey` says what the key of a plain question is.
- The pipeline stores a query before the answer is written, so a turn that ends in an error can have stored one
  (`TurnCaches.FailedTurnStores`); a similar hit adds its alias before the guard and the scope have their say.
- A template cannot be bound back when the statement already has a placeholder with a generated name
  (`Templater.TemplateRoundTrip`).
- Facts leave out Decimal columns when rows are fresh and sum them when rows come from the cache
  (`Totals.DecimalTotalsDiffer`); `Totals.FactsSameExactlyWhen` says exactly when the facts agree all the same.
- The scrubber can leave a complete `[{...}]` span (`Spans.NestedSpanIsLeft`): a removed span or a dropped data line can bring
  one together. `Spans.ScrubbedLeavesSpan` says exactly when.
- A message may have an empty id; as a head it counts as none (`Threads.HeadIsUsable`).
- Different scopes can have the same fingerprint if fields hold separators (`Fingerprints.SeparatorsCollide`), or if one has an
  empty geo value and the other none (`Fingerprints.EmptyValueCollides`). The result
  cache is not affected: its key holds the scoped statement as well, and the end-to-end theorem assumes nothing of
  fingerprints.

## Model

| member | source | states |
|---|---|---|
| ScopingTheorems.ScopingIsFiltering | app/rbac/injector.py:219-302 | For a restricted user, running the scoped statement on any database gives the same result as running the original on the database in which every scoped table keeps only the rows the user may see: derived tables, WHERE subqueries, unions, CTEs, grouping, LIMIT and outer joins included, as long as no join can null-extend a scoped table and no CTE is named like one |
| ScopingTheorems.ScopingFiltersShadowingCtes | app/rbac/injector.py:219-302 | With CTEs named like scoped tables, the injector scopes the references to them too: running the scoped statement is running the original with the rows of each such CTE filtered like those of the table |
| ScopingTheorems.OuterJoinStatement | app/rbac/injector.py:219-302 | For a statement whose outermost SELECT has any joins, grouping that keeps the number of rows and a LIMIT, if any, that does not cut what is kept of the visible rows, and in whose nested queries no join can null-extend a scoped table, scoping is filtering exactly when, on visible rows, no row is kept in which a scoped table has no match |
| ScopingTheorems.ScopedResultIndependent | app/rbac/injector.py:219-302 | With any joins and any CTE names, what a restricted user gets back is the same on any two databases that differ only in rows of scoped tables the user may not see; other tables, listed or not, count as visible here |
| TablesRead.ListedResultIndependent | app/rbac/injector.py:219-302 | If the statement reads whitelisted tables only, it is the same on any two databases whose whitelisted parts differ only in rows the user may not see |
| ScopingTheorems.NodeFiltered | app/rbac/injector.py:219-302 | The same filtering claim for every query nested in the statement, in any environment of outer rows |
| ScopingTheorems.NodeIndependent | app/rbac/injector.py:219-302 | The same independence claim for every nested query |
| ScopingTheorems.OuterJoinCondition | app/rbac/injector.py:219-302 | With an outer join, scoping a SELECT is filtering it exactly when, on visible rows, no row is kept in which a scoped table has no match; otherwise exactly those rows are lost |
| LeftJoins.LeftJoinLosesUnmatchedRow | app/rbac/injector.py:219-302 | A concrete left join where nothing is hidden from the user and scoping still loses a row |
| ScopingTheorems.RejectedAlike | app/rbac/injector.py:259-302 | Scoping never makes the database reject a statement it accepted, or accept one it rejected |
| Scoping.PredicateMeaning | app/rbac/injector.py:123-198 | The predicate injected for a table holds of a row exactly when the row is visible: geo value among the allowed ones, and some supported hierarchy column holding a code of the effective map |
| Scoping.EqOrInMeaning | app/rbac/injector.py:123-128 | The generated comparison or IN list holds exactly when the column equals one of the values |
| Injector.ApplyScope | app/rbac/injector.py:259-302 | The in-place walk produces the statement in which each SELECT is scoped on its own, or the first refusal; Visibility.VisibleByCodes and Visibility.ScopedExactlyWhen say what that means in terms of levels, columns and codes |
| Injector.ScopeTableInPlace | app/rbac/injector.py:219-256 | One table: the refusals in their order, or the predicate added to the WHERE of its own SELECT and nothing else changed |
| Injector.ScopeNodeInPlace | app/rbac/injector.py:201-302 | One SELECT: its directly referenced, whitelisted, not exempt tables are scoped; other nodes stay as they are |
| Injector.ScopeSelectInPlace | app/rbac/injector.py:259-302 | The loop over the tables of one SELECT stops at the first refusal |
| Injector.ScopeNodesEach | app/rbac/injector.py:259-302 | A statement can be scoped exactly when each of its SELECTs can |
| ScopeColumns.LevelColumnIs | app/rbac/injector.py:46-53 | The levels 100 to 600, and no others, have a filter column, which is sales_hier, the hundreds of the level, _code |
| ScopeColumns.OffersIs | app/rbac/injector.py:86-120 | A table offers a column exactly when it lists it, or lists the name column beside a code column; a fact table also lists the geo and sales columns of levels 1 to 10 |
| Visibility.VisibleByCodes | app/rbac/injector.py:123-198 | With any subtree, a row of a scoped table is visible exactly when its geo value is allowed and, if the effective map lists any code, it holds one listed at some level in the code column of that level, which its table offers |
| Visibility.VisibleDatabaseIs | app/rbac/injector.py:53-302 | What a restricted user sees of a database: tables that are whitelisted and not the global level lookup keep their visible rows, every other table keeps all |
| Visibility.ScopedExactlyWhen | app/rbac/injector.py:219-302 | A statement of a restricted user can be scoped exactly when the user has a scope at all and each scoped table that a FROM names offers the geo column if there is a geo scope, and the code column of some code of the effective map if that has any |
| Visibility.TableRefusal | app/rbac/injector.py:219-256 | A table that cannot be scoped is refused for its geo column if that is what it lacks, else for its code columns |
| Visibility.NoScopeRefusal | app/rbac/injector.py:271-286 | A restricted user is refused for having no scope exactly when there is neither a geo scope nor any code |
| Visibility.UnrestrictedUnscoped | app/rbac/injector.py:271-285 | A VP, or a user of level 100, gets the statement back unscoped |
| Visibility.OwnCodeFilters | app/rbac/injector.py:123-256 | A user with an own code, a level and nobody below gets the rows of a fact table whose column of that level holds the code |
| Profiles.MergeHierMap | app/rbac/injector.py:131-146 | In whatever order levels come, the effective map lists per level the descendants plus the own code at the own level, and no empty level |
| Visibility.VisibleIff | app/rbac/injector.py:131-198 | From the hierarchy table to a row, for any user: visible exactly when its geo value is allowed and, if the user has an own code with a level or anyone below, it carries, at a level the table supports, the own code or the code of someone below |
| Visibility.SeesRecent | app/rbac/hierarchy.py:82-106 | With a subtree from the cache, a user sees exactly the rows that the hierarchy table of some instant less than ten minutes ago entitles the user to, if that table gives each code one level |
| Visibility.ManagerSeesSubordinates | app/rbac/injector.py:131-198 | With equal geo scope and consistent levels a manager sees every row that anyone below sees, even if the hierarchy has cycles |
| Fingerprints.SameTextSameScope | app/rbac/profiles.py:50-67 | Between profiles whose fields hold no separator and whose geo values are not just one empty value, the digested text is the same exactly for the same role, level, code, geo column and geo values in any order |
| Fingerprints.SeparatorsCollide | app/rbac/profiles.py:50-67 | A concrete pair of different scopes with the same digested text, because a geo value holds a comma |
| Fingerprints.EmptyValueCollides | app/rbac/profiles.py:50-67 | A concrete pair without any separator: one empty geo value, and none |
| Hierarchy.ResolveSubtree | app/rbac/hierarchy.py:36-68 | Terminates on any rows, cyclic and duplicated ones included, and lists each reachable code other than the root once, at the level of some row that leads to it from a reachable code, or nowhere if that row has no level |
| Hierarchy.SubtreeIsExact | app/rbac/hierarchy.py:36-68 | With one level per code, a level lists exactly the codes of that level reachable from the root, without the root |
| Hierarchy.LevelsAreDisjoint | app/rbac/hierarchy.py:36-68 | Whatever the rows, no code is listed at two levels |
| Hierarchy.IndexChildren | app/rbac/hierarchy.py:46-53 | The child lists hold exactly the rows of each parent, in row order |
| Hierarchy.SubtreeCache.GetSubtreeFor | app/rbac/hierarchy.py:82-106 | An entry that has not expired is served whatever reading the table would give; otherwise the table as read now is resolved and kept for ten minutes, so a served subtree is that of the table less than ten minutes ago; unrestricted users and users without a code get an empty one; a failing read leaves the cache alone |
| Guard.GuardMeaning | app/sqlsafety/guard.py:98-149 | The guard passes exactly the single SELECT or UNION statements that nowhere do more than read and in no clause call a dangerous function, however the case of its name, and all of whose table names are unqualified and whitelisted or the name of some CTE of the statement |
| Guard.FunctionsAre | app/sqlsafety/guard.py:48-96 | A function name is forbidden exactly when it is one of the nine dangerous ones but for the case of its letters |
| Guard.SleepRefused | app/sqlsafety/guard.py:48-126 | SELECT sleep(10) in lower case is refused by name, whatever table it reads |
| TablesRead.GuardedReads | app/sqlsafety/guard.py:98-149 | A statement that passes reads whitelisted tables only, exactly when each name off the whitelist in the body of a CTE is that of an earlier CTE |
| TablesRead.OwnNameReadsTable | app/sqlsafety/guard.py:117-139 | For any table off the whitelist, a statement that passes the guard, is left as it is by scoping, and returns the whole table |
| TablesRead.ReadDecides | app/sqlsafety/guard.py:98-149 | The result of any statement is decided by the tables it reads, a name in the body of a CTE being a table unless it is that of an earlier CTE |
| Guard.VerdictIgnoresLeaves | app/sqlsafety/guard.py:98-149 | The verdict does not depend on literals, placeholders or columns |
| Fixer.FixColumnAliases | app/sqlsafety/fixer.py:27-82 | Text that does not parse or needs no fix comes back unchanged; otherwise the first statement comes back with its columns reconciled; Requalified.TextRequalified says when that is |
| Fixer.FixInPlace | app/sqlsafety/fixer.py:38-80 | The in-place loop rewrites exactly the columns that need it and reports whether it did |
| Requalified.RequalifiedExactlyWhen | app/sqlsafety/fixer.py:38-93 | A column is requalified exactly when it has a qualifier, its name is not ambiguous and is listed under a table that the statement has and binds a name to, and its qualifier means some other table: the last table of the statement that goes by it, else the one the schema gives the alias to. The new qualifier is the earliest alias of the table, or its own name if it has no alias |
| Requalified.TextRequalified | app/sqlsafety/fixer.py:27-82 | Text changes exactly when it parses and its first statement has such a column |
| Requalified.RequalifiedChanges | app/sqlsafety/fixer.py:63-80 | A requalified column gets another qualifier than it had |
| Fixer.RewrittenColumnsResolve | app/sqlsafety/fixer.py:63-93 | Every rewritten column is qualified by a name that the statement itself binds to the table listed for the column |
| Fixer.FixIdempotent | app/sqlsafety/fixer.py:27-82 | Fixing twice is fixing once |
| Fixer.FixIgnoresLiterals | app/sqlsafety/fixer.py:27-82 | Fixing commutes with any change of the literals |
| Verdicts.FixedVerdict | app/chat/pipeline.py:244-258 | Fixed text passes the guard exactly when the text passes unfixed, or when it has several statements, the first would pass alone and the fixer requalifies one of its columns; what passes is the fixed first statement |
| Verdicts.LaterStatementsDropped | app/chat/pipeline.py:244-258 | A concrete statement with a wrong qualifier that, with anything behind it, is refused unfixed and let through fixed |
| Limiter.EnforceLimit | app/sqlsafety/limiter.py:15-33 | In place, only the LIMIT of the statement itself can change |
| Limiter.LimitIsPrefix | app/sqlsafety/limiter.py:15-44 | The capped statement yields at most cap rows, a prefix of its rows without LIMIT; they are the first cap rows of the statement itself exactly unless its LIMIT is not a plain integer, is smaller than the cap and cuts the result |
| Limiter.LimitAndScopeCommute | app/rbac/injector.py:305-320 | Limiting and scoping in either order give the same tree or the same refusal, so the pipeline and scoped_sql agree |
| Limiter.ScopedSql | app/rbac/injector.py:305-320 | Guard, scope, cap: refuses what the guard or the scope refuses and otherwise returns what the pipeline would run |
| Limiter.FinalQuery | app/chat/pipeline.py:246-265 | What is finally run for a restricted user yields the first cap rows of the original statement on the rows the user may see, when no join can null-extend a scoped table |
| Templater.ParameterizeInPlace | app/cache/templater.py:59-87 | Each string literal is replaced by a numbered placeholder of its kind, and the specification records it |
| Templater.ParameterizeSql | app/cache/templater.py:46-87 | Text that does not parse comes back unchanged with an empty specification |
| Templater.BindInPlace | app/cache/templater.py:116-140 | Each placeholder the specification names gets its value back, or the first date of the question if it stands for a date |
| Templater.BindTemplate | app/cache/templater.py:102-140 | Binding on text |
| Templater.NamesDistinct | app/cache/templater.py:46-87 | Different string literals get different names |
| Templater.PlaceholdersAre | app/cache/templater.py:59-87 | In the template a string literal is a placeholder named date or str with its number, from 1, among the literals of its kind; other literals stay |
| Templater.SpecMeaning | app/cache/templater.py:59-87 | The specification holds exactly the names given out, each with its literal |
| Templater.TemplateRoundTrip | app/cache/templater.py:46-140 | Binding a template gives back the statement with its date literals replaced by the question's first date, and nothing else changed, exactly when no placeholder of the statement has a generated name |
| Templater.TakenNameIsFilled | app/cache/templater.py:46-140 | A concrete statement with such a placeholder, which binding fills |
| Templater.TemplateRoundTripPlain | app/cache/templater.py:46-140 | Without a date in the question the statement comes back unchanged |
| Templater.FirstDate | app/cache/templater.py:28-43 | The leftmost ISO date of a question, or none if there is none |
| Templater.IsoDatesAre | app/cache/templater.py:28-43 | What counts as a date is a year of four, a month of two and a day of two digits, in this order |
| Templater.DateLiteralsAre | app/cache/templater.py:28-43 | The literals that become dates are such a date, alone or followed by a space or a T and a time of day |
| Templater.BoundVerdict | app/chat/pipeline.py:240-247 | SQL that passes the fixer and the guard passes both again after it was made a template and bound for any question |
| TurnTheorems.TurnTrace | app/chat/pipeline.py:171-413 | Whatever fails, a turn emits exactly one Done, last; writes exactly one audit row, or leaves no trace in the tables if that insert fails; sends at most one statement, the limited and scoped form for this user of the turn's SQL after it passed the guard; delivers only results of that statement, none before announcing it |
| TurnTheorems.TurnStream | app/api/chat.py:114-148 | The stream of a turn is well-formed and announces every tool output it carries |
| AuditTrail.TurnAudited | app/chat/pipeline.py:171-463 | Every turn that can write its audit row writes one for its user and question, with the resolved question if that differs, the statement it was to execute, where its SQL came from, and the row count of what it delivered; a blocked or failed status comes with the message for that, and only a turn that needs no SQL is fine without a row count |
| TurnCaches.StoredExactlyWhen | app/chat/pipeline.py:310-332 | The exact condition under which a turn stores its query; without it, cache hits included, the table learns no new answer |
| TurnCaches.FailedTurnStores | app/chat/pipeline.py:310-353 | A turn whose answer fails after that is audited as failed and has stored its query all the same |
| TurnCaches.UnansweredTurnStores | app/chat/pipeline.py:310-353 | A concrete first turn that does so |
| TurnCaches.HitsAreNotBlocked | app/chat/pipeline.py:196-258 | On a table whose entries have a known origin no cache hit is blocked by the guard |
| TurnCaches.HitPassesGuard | app/chat/pipeline.py:240-247 | An entry made from guarded SQL passes the guard again, bound for any question |
| TurnCaches.TurnLearns | app/chat/pipeline.py:196-332 | Each cached query after a turn answers as one before it did, or is the one this turn stored |
| TurnCaches.EveryQueryWasStored | app/chat/pipeline.py:196-332 | Every cached query of a run, aliases included, holds the template, the specification and the temporal intent of a turn of that run whose SQL the model wrote, passed the guard, was limited and scoped for its user, and found rows |
| TurnCaches.TurnKeepsQueries | app/chat/pipeline.py:196-332 | Whatever the table was filled by, every turn keeps the invariant that each cached template can be made from SQL that passes the guard, can be scoped for some user and finds rows at some instant |
| TurnCaches.TurnKeepsResults | app/chat/pipeline.py:267-308 | Every turn keeps the invariant that each cached result is what the database answered when it was put |
| TurnCaches.TurnServes | app/chat/pipeline.py:267-343 | Every delivered result, cached or fresh, is what the database answered to exactly its statement, now or less than a lifetime ago |
| TurnCaches.RunKeepsCaches | app/chat/pipeline.py:171-413 | After any run of turns, sweeps and invalidations in time order, every cached query was stored by a turn of the run, and every cached result is what the database answered when it was put |
| CacheKeys.ExactHitServes | app/chat/pipeline.py:187-247 | A turn with a valid row under the key of its resolved question announces the template of that row, bound for the resolved question, reconciled and limited, or says that it is blocked |
| CacheKeys.SimilarHitServes | app/chat/pipeline.py:203-247 | Without one, a valid row that the search finds, at least as similar as the threshold and of the temporal intent of the resolved question, is served in the same way |
| CacheKeys.MissAsksModel | app/chat/pipeline.py:221-260 | Without either, the plan of the model is announced, answered with, or reported as failed |
| CacheKeys.TurnWrites | app/chat/pipeline.py:187-332 | Each row after a turn was there before, with the same answer, or is under the key of the turn's resolved question and holds what the turn stored or the answer of the similar row it aliased |
| CacheKeys.QueryIsStored | app/chat/pipeline.py:310-332 | A turn that misses, whose model writes SQL that reaches the database now and finds rows, and for which nothing of the storing fails, stores it under that key with its embedding and temporal intent |
| CacheKeys.EveryKeyWasPut | app/chat/pipeline.py:187-332 | Over every run, each row was put, with the answer it has, by a turn of the run whose resolved question has its key |
| CacheKeys.HitsShareKey | app/chat/pipeline.py:187-332 | After any run, an exact hit announces what a turn of the run put there whose resolved question has the same key |
| CacheKeys.TurnPutsResult | app/chat/pipeline.py:277-308 | A turn puts at most the fresh answer to its own statement, under that statement and the fingerprint of its user, with the lifetime of the settings |
| TurnCaches.RunKeepsLive | app/chat/pipeline.py:277-308 | A result stays in the cache, unchanged, through any stretch of a run in which it is live |
| TurnCaches.AnyRunServesSafely | app/chat/pipeline.py:171-413 | After any run, no cache hit is blocked by the guard and whatever is delivered is fresh enough |
| TurnAnswers.TurnTextSplits | app/chat/pipeline.py:345-357 | The prose that the PDF export splits off the text of a turn is exactly the answer of the turn |
| TurnAnswers.CachedTurnLooksSame | app/chat/pipeline.py:277-357 | In any run: if one turn asks the database and keeps the answer, and a later turn executes the same statement for the same scope while that answer lives, whatever lies between them, the later turn delivers the same events but for the flag that says cached, if the model writes the same text |
| TurnAnswers.TurnShowsVisibleRows | app/chat/pipeline.py:171-413 | End to end, after any run, for a restricted user and a database that may fail at any time and whose functions may answer differently at each instant: each delivered result was answered within the lifetime to the turn's own SQL; when no join can null-extend a scoped table, no CTE is named like one and LIMIT is plain, it is the first rows of that SQL on the rows this user may see; in any case it does not depend on rows of scoped tables the user may not see, and not on tables off the whitelist either when the bodies of CTEs name none |
| ChatPipelines.ChatPipeline.Run | app/chat/pipeline.py:143-413 | The step-by-step run, with its rollbacks, ends in the tables, events and sent statements that the specification of a turn gives, for the subtree it worked with |
| ChatPipelines.ChatPipeline.Serve | app/chat/pipeline.py:143-413 | A turn keeps the invariants the next one relies on; its trace, its results and what they show a restricted user are as stated above, the visible rows being those of the hierarchy table less than ten minutes ago |
| ChatPipelines.ChatPipeline.ResolveAndExecute | app/chat/pipeline.py:196-237 | Exact hit, else similar hit with a new alias, else the model; a failing embedding or search is a miss |
| ChatPipelines.ChatPipeline.CheckAndExecute | app/chat/pipeline.py:244-260 | Fixer, guard and limiter; a refusal is audited as blocked with the SQL that was refused |
| ChatPipelines.ChatPipeline.ScopeAndExecute | app/chat/pipeline.py:262-275 | Scoping with a recent subtree; a refusal is audited as blocked, a failing read of the hierarchy as failed |
| ChatPipelines.ChatPipeline.Execute | app/chat/pipeline.py:277-296 | A live cached result is served without asking the database; otherwise the database is asked once |
| ChatPipelines.ChatPipeline.AskDatabase | app/chat/pipeline.py:283-332 | The statement is sent once; a failing database is reported and audited as failed |
| ChatPipelines.ChatPipeline.PlanAndExecute | app/chat/pipeline.py:222-237 | A general answer ends the turn, SQL of the model goes on to the fixer, a failing model ends in the generic error |
| ChatPipelines.ChatPipeline.BindAndExecute | app/chat/pipeline.py:240-244 | A cached template is bound for the resolved question |
| ChatPipelines.ChatPipeline.FinishAnswer | app/chat/pipeline.py:347-399 | Answer, then the table if there is one, then the audit row, then at most three suggestions, then Done |
| ChatPipelines.ChatPipeline.Rollback | app/chat/pipeline.py:466-473 | All three tables are what they were when the turn began |
| ChatPipelines.ChatPipeline.Remember | app/chat/pipeline.py:298-332 | A fresh result is put and its query stored; a failing put or store restores the session's start |
| ChatPipelines.ChatPipeline.AnswerTurn | app/chat/pipeline.py:334-399 | The result, the answer, the table, the audit row and the suggestions |
| ChatPipelines.ChatPipeline.Audit | app/chat/pipeline.py:415-463 | One audit row, or the session's start restored if the insert fails |
| QueryCaching.QueryCache.LookupExact | app/cache/semantic.py:34-52 | A valid row under the key, its hit counted; no other row changes |
| QueryCaching.QueryCache.LookupSemantic | app/cache/semantic.py:54-92 | The nearest valid row only if it is similar enough and of the same temporal intent |
| QueryCaching.QueryCache.Store | app/cache/semantic.py:94-131 | Upsert: a conflict refreshes template, specification, embedding and intent and makes the row valid, keeping its creator and hits |
| QueryCaching.QueryCache.AddAlias | app/cache/semantic.py:133-160 | A clone under the new phrasing, unless the phrasing has a row |
| QueryCaching.QueryCache.InvalidateAll | app/cache/semantic.py:162-168 | Every row becomes invalid; the number returned is that of the rows that were valid |
| QueryCaching.AliasHitsExactly | app/cache/semantic.py:133-160 | A phrasing that hit by similarity and has no row hits exactly the next time, with the same answer and intent |
| QueryCaching.InvalidUntilStored | app/cache/semantic.py:94-168 | After an invalidation nothing hits until it is stored again, and then only that |
| ResultCaching.ResultCache.Fetch | app/cache/results.py:64-80 | Over any interleaving with a clock that does not go back, returns the last entry put under the key exactly until its lifetime ends; an expired row is deleted |
| ResultCaching.ResultCache.Put | app/cache/results.py:82-111 | Upserts the converted rows with their expiry |
| ResultCaching.ResultCache.Sweep | app/cache/results.py:113-117 | Deletes exactly the expired rows and returns their number |
| ResultCaching.ReadsAndSweepsUnobservable | app/cache/results.py:61-117 | Lazy deletions and sweeps change no later answer |
| ResultCaching.JsonableIdempotent | app/cache/results.py:39-58 | Converted rows convert to themselves |
| RateLimit.Limiter.Check | app/middleware/ratelimit.py:77-96 | The verdict of the key's bucket as if it had never been pruned, and afterwards no surviving bucket has been idle for 660 s |
| RateLimit.Limiter.Prune | app/middleware/ratelimit.py:67-74 | At most once a minute, removes exactly the buckets idle for more than ten minutes |
| RateLimit.Limiter.Reset | app/middleware/ratelimit.py:60-64 | No bucket and no sweep is remembered |
| RateLimit.ServeAll | app/middleware/ratelimit.py:67-96 | On every run of requests with a clock that does not go back, the answers are those of a limiter that never prunes |
| RateLimit.MirrorsDecideAlike | app/middleware/ratelimit.py:67-96 | A long idle bucket decides like a missing one |
| RateLimit.RateBound | app/middleware/ratelimit.py:77-96 | With a fixed limit L, no half-open minute of any run holds more than 2L - 1 admissions of a key, and none of its windows ever holds more than L |
| RateLimit.RateBoundIsTight | app/middleware/ratelimit.py:77-96 | That bound is reached for every limit |
| RateLimit.RetryAfterIsExact | app/middleware/ratelimit.py:87-96 | A rejected key that waits the advised number of seconds is admitted, and no smaller positive number suffices |
| RateLimit.NonPositiveLimitBlocks | app/middleware/ratelimit.py:77-96 | A limit that is not positive admits nothing; no wait is advised exactly when the request opens a window |
| UIStream.EventStream | app/api/chat.py:114-148 | The frames written for the events of a run |
| UIStream.StreamWellFormed | app/chat/stream.py:42-133 | Whatever the events: text lies inside its open block, block ids increase, every block is closed, and no tool input, suggestions or finish frame occurs inside one |
| UIStream.StreamRoundTrip | app/chat/stream.py:42-133 | Decoding the frames gives back the events of the run, in order |
| UIStream.OutputsAnnounced | app/chat/stream.py:87-114 | If every result follows some SQL, every tool output names a call announced before it |
| UIStream.UIMessageStream.WriteText | app/chat/stream.py:62-77 | Opens a block if none is open, then writes into the open one |
| UIStream.UIMessageStream.BeginText | app/chat/stream.py:56-60 | Opens a block with the next id |
| UIStream.UIMessageStream.EndText | app/chat/stream.py:79-85 | Closes the open block, if there is one |
| UIStream.UIMessageStream.Suggest | app/chat/stream.py:116-125 | Closes an open text block before the suggestions |
| UIStream.UIMessageStream.ToolInput | app/chat/stream.py:87-107 | Closes an open text block and announces a new call |
| UIStream.UIMessageStream.ToolOutput | app/chat/stream.py:109-114 | The output names the current call |
| UIStream.UIMessageStream.Close | app/chat/stream.py:127-133 | Closes an open text block and ends the stream |
| Regrouping.RegroupIsByRuns | app/domain/formatting.py:128-153 | The regular expression with its backtracking rewrites exactly the maximal runs of digits and commas that are Western-grouped, with or without a fraction |
| Regrouping.RegroupIdempotent | app/domain/formatting.py:140-153 | Regrouping twice is regrouping once, and it changes nothing but commas |
| Regrouping.RewrittenIsIndian | app/domain/formatting.py:133-153 | Every rewritten run ends in three digits after groups of two and starts with one or two, with the same digits |
| Regrouping.IndianUnique | app/domain/formatting.py:133-137 | Indian grouping of given digits is unique |
| Totals.ComputeTotalFacts | app/domain/formatting.py:210-270 | Flags a result that reaches the row cap; otherwise sums each target column; ReportedTotals.TotalsAre says what the sums are |
| ReportedTotals.TotalsAre | app/domain/formatting.py:206-270 | Totals are refused exactly for results of at least the row cap. Otherwise exactly the columns with a number whose name holds a word for a quantity, or all with a number if none of these does, have one, and it is reached from 0 by adding, row by row, the value of an integer or a float and nothing for any other cell |
| ReportedTotals.TotalGrows | app/domain/formatting.py:260-263 | One more row changes a total by what its cell contributes |
| ReportedTotals.AdditiveIs | app/domain/formatting.py:186-198 | A column name sounds additive exactly when one of eleven words stands in it, in any case |
| Totals.FindNumericColumns | app/domain/formatting.py:247-251 | Exactly the columns with a numeric cell, in order |
| Totals.SumTargets | app/domain/formatting.py:260-263 | Each target column gets the sum of its numeric cells |
| Totals.TotalsComplete | app/domain/formatting.py:210-270 | Unflagged totals are complete for every result exactly when the enforced cap is no smaller than the row cap of the facts |
| Totals.PipelineTotalsComplete | app/domain/formatting.py:210-270 | For a capped statement, unflagged facts are the facts of the complete result of the statement |
| Totals.FactsSameExactlyWhen | app/chat/answerer.py:122-151 | Facts over cached rows are those over fresh rows exactly when there are no rows or columns, or the row cap is reached, or no column whose only numbers are Decimals could get a total and the Decimals of each column with a total cancel out |
| Totals.FactsSameWithoutDecimals | app/chat/answerer.py:122-151 | In particular they are the same when no cell is a Decimal |
| Totals.DecimalTotalsDiffer | app/chat/answerer.py:122-151 | A Decimal column has no total when fresh and one when cached |
| Normalizer.StripFiller | app/cache/normalizer.py:60-78 | Terminates on any text, after passes until one changes nothing |
| Normalizer.FillerFreeWords | app/cache/normalizer.py:60-78 | On single-spaced text the result is the unique normal form |
| Normalizer.FillerFreeFixed | app/cache/normalizer.py:60-78 | On any text without spaces at its ends, no phrase cuts anything from the result |
| Normalizer.StripPass | app/cache/normalizer.py:62-77 | One pass cuts the phrases in source order and reports a change exactly when the text got shorter |
| Normalizer.PassOnWords | app/cache/normalizer.py:62-77 | On single-spaced text a pass keeps the normal form, and one that changes nothing finds no filler at either end |
| Normalizer.StripPhrase | app/cache/normalizer.py:64-76 | One phrase is cut from the front and from the end, and a change is reported exactly when the text got shorter |
| Normalizer.AnyOrderReachesNormalForm | app/cache/normalizer.py:60-78 | However fillers are removed, from either end and in any order, once none is left the result is that normal form |
| Normalizer.NormalFormStep | app/cache/normalizer.py:60-78 | A filler before or after changes nothing about the normal form |
| QuestionKeys.NormalizeQuestion | app/cache/normalizer.py:81-94 | Lower case, punctuation, spaces, synonyms and fillers give the key of the question |
| QuestionKeys.CollapseStripIsJoin | app/cache/normalizer.py:81-94 | Collapsing spaces and stripping joins the words with single spaces |
| QuestionKeys.ApplySynonyms | app/cache/normalizer.py:54-57 | The synonyms one after the other, longest phrases first |
| QuestionKeys.FillersKeepKey | app/cache/normalizer.py:54-94 | A run of filler phrases before or after a question, in any case and with any punctuation, does not change its key |
| PlainQuestions.CleanIs | app/cache/normalizer.py:33-35 | Character by character: letters lose their case, digits, percent signs and white space stay, anything else becomes a space |
| PlainQuestions.WordsKey | app/cache/normalizer.py:37-94 | The key of any question of letters and digits without a two-word synonym is its words, each by its meaning, without the polite phrases at the ends; words that merely start with a synonym stay |
| PlainQuestions.SynonymKey | app/cache/normalizer.py:37-94 | A synonym of one or two words between such words becomes what it stands for |
| PlainQuestions.PlainKeysDiffer | app/cache/normalizer.py:81-94 | Such questions without fillers at their ends share a key only if they have the same words |
| PlainQuestions.NumbersTellApart | app/cache/normalizer.py:81-94 | Questions that differ in a number at the end have different keys |
| PlainQuestions.PolitenessDropped | app/cache/normalizer.py:22-30 | Each of the seven polite phrases, before or after, leaves the key as it is |
| PlainQuestions.DocumentedParaphraseDiffers | app/cache/normalizer.py:1-8 | The two questions that the documentation says share a key do not |
| Answerer.SplitRecoversAnswer | app/threads/pdf.py:87-99 | For any text the model writes and any result, splitting the answer with its table gives back exactly the answer |
| Answerer.ScrubRawRowDumps | app/chat/answerer.py:60-81 | Row dumps, an unterminated tail and data lines removed, whitespace tidied |
| Scrubbing.ScrubbedParts | app/chat/answerer.py:60-81 | The non-empty lines of scrubbed text, stripped, are exactly the prose lines of the text left after the dumps are cut, in order, stripped and with runs of spaces made one |
| Scrubbing.NoDataLineLeft | app/chat/answerer.py:46-81 | No line of scrubbed text is a table or row echo |
| DataLines.DataLineIs | app/chat/answerer.py:34-58 | A line counts as data exactly when, stripped, it starts with a pipe, has three spaces between two other characters, or has at most five words and a number at its end |
| DataLines.CutTailIs | app/chat/answerer.py:72-74 | The text is cut at its first opening of a dump exactly when no close follows it |
| Scrubbing.ScrubbedIsTidy | app/chat/answerer.py:60-81 | Scrubbed text has no two spaces in a row, no space before a newline and no three newlines in a row |
| Answerer.ScrubbedPipeFree | app/chat/answerer.py:60-81 | No line of scrubbed text starts with a pipe, and it has no space at its ends |
| Spans.HasSpanIs | app/chat/answerer.py:60-81 | A text holds a complete row dump exactly when the pattern matches somewhere |
| Spans.RemovalLeavesSpan | app/chat/answerer.py:60-71 | Removing the spans leaves one exactly when a kept opening bracket is followed by spaces and at least one removed span before a kept brace that has a close after it |
| Spans.ScrubbedLeavesSpan | app/chat/answerer.py:60-81 | The scrubbed text holds a complete row dump exactly when a removed span or a dropped data line lay between the brackets and braces that now make one |
| Spans.NestedSpanIsLeft | app/chat/answerer.py:60-81 | A concrete text whose scrubbed form is a complete span |
| Answerer.RemovedSpanMakesAnother | app/chat/answerer.py:60-81 | The span pass alone turns that text into a complete span |
| Answerer.StreamAnswerText | app/chat/answerer.py:154-182 | Without rows a fixed sentence; otherwise the buffered text scrubbed and regrouped, or the lead-in if nothing is left |
| Answerer.RenderMarkdownTable | app/chat/answerer.py:84-111 | Nothing for no rows, no columns or a single cell; otherwise header, rule and rows |
| Answerer.TableShowsEveryRow | app/chat/answerer.py:84-111 | Cut at its newlines, the table is the header, the rule and one line per row, in order, whatever the cells contain; each line has one cell per column, in the order of the header |
| ShownCells.ShownIs | app/chat/answerer.py:84-111 | What the table shows of a value from the database: nothing for a missing one, a text, date or bytes as they read, a number as rupees under a money column and as it prints elsewhere |
| ShownCells.EscapeReadsBack | app/chat/answerer.py:95-96 | Escaping loses nothing but newlines |
| ShownCells.MoneyIs | app/domain/formatting.py:83-125 | A column of money has a word for money in its name, in any case, and none for anything else |
| Answerer.CachedTableSame | app/chat/answerer.py:84-111 | The table is the same for fresh and cached rows |
| Prose.SplitProse | app/threads/pdf.py:87-99 | The loop keeps the lines before the first that starts with a pipe |
| Prose.SplitBeforeTable | app/threads/pdf.py:87-99 | Text without such lines in front of a table is what comes back |
| Threads.StepKeeps | app/threads/service.py:38-165 | Every operation keeps each thread's head null or one of its own messages, moves no message between threads, and changes nothing of other users |
| Threads.RunKeeps | app/threads/service.py:38-165 | Heads stay inside their threads over every run |
| Threads.RunIsolated | app/threads/service.py:38-165 | No run of other users' operations changes what a user owns |
| Threads.LastWriteWins | app/threads/service.py:115-165 | After any run, the messages are exactly those written and not removed since, each with the thread, parent, format and content of its last writer |
| Threads.DeletedStays | app/threads/service.py:38-165 | Once deleted, a thread never changes again |
| Threads.ThreadService.GetThread | app/threads/service.py:38-50 | Finds exactly the user's own threads that are not deleted |
| Threads.ThreadService.Upsert | app/threads/service.py:115-151 | Inserts or updates one message of the thread, moves the head as told, refuses an id of another thread |
| Threads.ThreadService.Remove | app/threads/service.py:154-165 | Deletes the listed messages of the thread and resets a head that was among them, which refreshes the thread's time of update |
| Threads.ThreadService.Delete | app/threads/service.py:91-94 | Marks the thread as deleted, which refreshes its time of update |
| Threads.ThreadService.Update | app/threads/service.py:75-88 | Changes title and status as given and refreshes the time of update if that changed anything |
| Threads.ThreadService.Create | app/threads/service.py:64-68 | A new empty thread of the user |
| Threads.ActiveBranch | app/threads/pdf.py:62-84 | Terminates even if parents form a cycle; for a usable head, a duplicate-free parent-linked chain ending at the head that starts only at a null, missing or repeated parent |
| Threads.BranchUnique | app/threads/pdf.py:62-84 | That chain is determined by the messages and the head |
| Threads.HeadIsUsable | app/threads/pdf.py:62-84 | In a consistent store a set head is usable on the thread's own messages exactly when its id is not empty |

## Left out

- Parsing and printing of SQL by sqlglot, and its dialects: statements are trees, and printing is taken to be the inverse of parsing.
- Templater.BindTemplate: does not model the textual replacement used for templates that do not parse; such a template comes back unchanged. Stored templates always parse.
- Guard.GuardMeaning: says which statements pass, not which of several errors is reported, and takes the forbidden constructs of a node as given marks.
- Recursive CTEs, CTEs inside nested queries, references to later CTEs, and parenthesised join groups.
- GROUP BY, HAVING, ORDER BY, DISTINCT and window functions: one uninterpreted function of the output rows and of the values of these clauses' expressions, in order, for the rows that survive WHERE.
- ScopingTheorems.ScopingIsFiltering: excludes statements in which a CTE takes the name of a scoped table; the guard lets them pass, the injector then scopes the reference to the CTE, and ScopingTheorems.ScopingFiltersShadowingCtes says what that means.
- ScopingTheorems.OuterJoinStatement: is stated for outer joins of the outermost SELECT, with grouping that keeps the number of rows and a LIMIT that does not cut; inside nested queries, and where LIMIT or grouping may hide the difference, lost rows are characterised one SELECT at a time by ScopingTheorems.OuterJoinCondition.
- SHA-256: the result cache is keyed by the pair that is digested.
- JSON and SSE encoding of frames; frame ids are numbers.
- Floating point: totals are exact reals, and `format_rupees` and Python's `str` of a value are parameters of the table printer.
- Answerer.TableShowsEveryRow: assumes that a printed amount holds no newline.
- Text beyond ASCII (the rupee sign excepted): case, spaces, digits and line boundaries are those of ASCII.
- `is_greeting` and `extract_temporal_intent`: parameters of the pipeline; nothing proved depends on what they answer.
- The order in which the vector search returns rows: the nearest row and its similarity are inputs.
- TurnTheorems.TurnTrace: states runs consumed to the end, at one instant per turn, without interleaving of turns at their await points; token counts, durations and error texts of audit rows are left out.
- A rollback that itself fails, and a session left unusable by a failed read.
- Language model, embeddings, speech, HTTP, SSH tunnel, connection pool, configuration, logging, migrations and PDF layout.
- ThreadService listing and title generation, and the shape of message contents.
- Hierarchy.ResolveSubtree: takes the codes of the rows as already stripped of spaces, and levels as already converted.
- `_bucket_identity`, `_route_bucket` and `_limit_for` of the rate limiter: the key and the limit are inputs; buckets are values in a map.
