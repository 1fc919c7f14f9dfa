/** Deterministic totals: app/domain/formatting.py and `build_facts` of app/chat/answerer.py. Sums are exact reals. */
module Totals {
  import opened Characters
  import opened Relational
  import opened Sql
  import opened ResultCaching
  import opened Limiter

  const ADDITIVE_HINTS: seq<string> :=
    ["revenue", "value", "amount", "qty", "quantity", "count", "sales", "net", "gross", "sum", "total"]

  const DEFAULT_ROW_CAP: nat := 50

  function Lower(s: string): string {
    Map(LowerChar, s)
  }

  /** `sub in s`. */
  predicate Contains(s: string, sub: string) {
    sub <= s || (s != "" && Contains(s[1..], sub))
  }

  predicate HasAnyHint(name: string, hints: seq<string>) {
    exists k :: 0 <= k < |hints| && Contains(Lower(name), hints[k])
  }

  predicate IsAdditive(name: string) {
    HasAnyHint(name, ADDITIVE_HINTS)
  }

  /** A bool is not a number here, and neither is a Decimal. */
  predicate IsNumeric(v: CellValue) {
    v.IntCell? || v.FloatCell?
  }

  function Number(v: CellValue): real {
    match v
    case IntCell(i) => i as real
    case FloatCell(f) => f
    case _ => 0.0
  }

  type Record = seq<CellValue>

  function At(r: Record, k: nat): CellValue {
    if k < |r| then r[k] else NoneCell
  }

  predicate AnyNumeric(rows: seq<Record>, k: nat) {
    exists i :: 0 <= i < |rows| && IsNumeric(At(rows[i], k))
  }

  /** The sum of the numeric cells of column `k`. */
  function ColumnSum(rows: seq<Record>, k: nat): real {
    if rows == [] then 0.0 else
      ColumnSum(rows[..|rows| - 1], k) + if IsNumeric(At(rows[|rows| - 1], k)) then Number(At(rows[|rows| - 1], k)) else 0.0
  }

  /** The first `n` columns that have a numeric cell. */
  function NumericColumns(columns: seq<string>, rows: seq<Record>, n: nat): seq<string>
    requires n <= |columns|
  {
    if n == 0 then [] else
      NumericColumns(columns, rows, n - 1) + if AnyNumeric(rows, n - 1) then [columns[n - 1]] else []
  }

  function TargetColumns(numeric: seq<string>): seq<string> {
    var additive := Filter(IsAdditive, numeric);
    if additive == [] then numeric else additive
  }

  datatype Facts = Facts(truncated: bool, rowCount: nat, targets: seq<string>, totals: map<string, real>)

  /** The sum of each target column. */
  function SumsOf(columns: seq<string>, rows: seq<Record>, targets: seq<string>): map<string, real> {
    map c | c in targets :: ColumnSum(rows, IndexOf(columns, c))
  }

  function TotalFacts(columns: seq<string>, rows: seq<Record>, rowCap: nat): Facts {
    if rows == [] || columns == [] then Facts(false, |rows|, [], map[])
    else if |rows| >= rowCap then Facts(true, |rows|, [], map[])
    else
      var targets := TargetColumns(NumericColumns(columns, rows, |columns|));
      Facts(false, |rows|, targets, SumsOf(columns, rows, targets))
  }

  method FindNumericColumns(columns: seq<string>, rows: seq<Record>) returns (numeric: seq<string>)
    ensures numeric == NumericColumns(columns, rows, |columns|)
  {
    numeric := [];
    var n := 0;
    while n < |columns|
      invariant n <= |columns| && numeric == NumericColumns(columns, rows, n)
    {
      if AnyNumeric(rows, n) {
        numeric := numeric + [columns[n]];
      }
      n := n + 1;
    }
  }

  method SumTargets(columns: seq<string>, rows: seq<Record>, targets: seq<string>) returns (totals: map<string, real>)
    ensures totals == SumsOf(columns, rows, targets)
  {
    totals := map[];
    var k := 0;
    while k < |targets|
      invariant k <= |targets| && totals == SumsOf(columns, rows, targets[..k])
    {
      var idx := IndexOf(columns, targets[k]);
      var sum := SumColumn(rows, idx);
      totals := totals[targets[k] := sum];
      assert targets[..k + 1] == targets[..k] + [targets[k]];
      k := k + 1;
    }
    assert targets[..k] == targets;
  }

  /** `compute_total_facts`. */
  method ComputeTotalFacts(columns: seq<string>, rows: seq<Record>, rowCap: nat) returns (facts: Facts)
    ensures facts == TotalFacts(columns, rows, rowCap)
  {
    if rows == [] || columns == [] {
      return Facts(false, |rows|, [], map[]);
    }
    if |rows| >= rowCap {
      return Facts(true, |rows|, [], map[]);
    }
    var numeric := FindNumericColumns(columns, rows);
    if numeric == [] {
      assert TargetColumns(numeric) == [];
      return Facts(false, |rows|, [], map[]);
    }
    var targets := Filter(IsAdditive, numeric);
    if targets == [] {
      targets := numeric;
    }
    var totals := SumTargets(columns, rows, targets);
    return Facts(false, |rows|, targets, totals);
  }

  method SumColumn(rows: seq<Record>, k: nat) returns (sum: real)
    ensures sum == ColumnSum(rows, k)
  {
    sum := 0.0;
    var i := 0;
    while i < |rows|
      invariant i <= |rows| && sum == ColumnSum(rows[..i], k)
    {
      assert rows[..i + 1][..i] == rows[..i];
      if IsNumeric(At(rows[i], k)) {
        sum := sum + Number(At(rows[i], k));
      }
      i := i + 1;
    }
    assert rows[..i] == rows;
  }

  // ---- Totals are never partial ----

  /** A total that is reported for the capped rows is the total over the uncapped result. */
  ghost predicate CompleteTotals(columns: seq<string>, full: seq<Record>, cap: nat, rowCap: nat) {
    var facts := TotalFacts(columns, Take(cap, full), rowCap);
    facts.truncated
    || (Take(cap, full) == full && forall c :: c in facts.totals ==> facts.totals[c] == ColumnSum(full, IndexOf(columns, c)))
  }

  /** Unflagged totals are complete for every result exactly when the enforced cap is no smaller than the row cap of the facts. */
  lemma TotalsComplete(cap: nat, rowCap: nat)
    requires rowCap >= 1
    ensures cap >= rowCap <==> forall columns, full :: columns != [] ==> CompleteTotals(columns, full, cap, rowCap)
  {
    if cap >= rowCap {
      forall columns: seq<string>, full: seq<Record> | columns != [] ensures CompleteTotals(columns, full, cap, rowCap) {
      }
    } else {
      var full: seq<Record> := seq(cap + 1, _ => [IntCell(1)]);
      assert !CompleteTotals(["n"], full, cap, rowCap);
    }
  }

  /** In the chat pipeline: a capped statement whose facts are not flagged sums over the complete result of the statement,
      provided its LIMIT is a plain integer or missing. */
  lemma PipelineTotalsComplete(w: World, t: Tree, cap: nat, db: Database, rowCap: nat, toRecord: Row -> Record)
    requires Accepted(t) && CtesNested(t) && !t.nodes[0].Statement?
    requires RootLimit(t.nodes[0]).Some? ==> RootLimit(t.nodes[0]).value.Plain?
    requires cap >= rowCap >= 1 && Run(w, t, db).Some? && Run(w, t, db).value.cols != []
    ensures Run(w, LimitTree(t, cap), db).Some?
    ensures var full, capped := Run(w, t, db).value, Run(w, LimitTree(t, cap), db).value;
      var facts := TotalFacts(capped.cols, Map(toRecord, capped.rows), rowCap);
      facts.truncated
      || (capped == full
          && forall c :: c in facts.totals ==> facts.totals[c] == ColumnSum(Map(toRecord, full.rows), IndexOf(full.cols, c)))
  {
    LimitIsPrefix(w, t, cap, db);
    var full, capped := Run(w, t, db).value, Run(w, LimitTree(t, cap), db).value;
    if capped.rows == [] {
      assert Take(cap, full.rows) == [];
    }
  }

  // ---- Fresh and cached rows ----

  function JsonableRecord(r: Record): Record {
    Map(JsonableValue, r)
  }

  predicate AnyDecimal(rows: seq<Record>, k: nat) {
    exists i :: 0 <= i < |rows| && At(rows[i], k).DecimalCell?
  }

  /** A column that is numeric only once it comes from the cache. */
  predicate DecimalOnly(rows: seq<Record>, k: nat) {
    AnyDecimal(rows, k) && !AnyNumeric(rows, k)
  }

  /** The sum of the Decimal cells of column `k`. */
  function DecimalSum(rows: seq<Record>, k: nat): real {
    if rows == [] then 0.0 else
      DecimalSum(rows[..|rows| - 1], k) + match At(rows[|rows| - 1], k) case DecimalCell(d) => d case _ => 0.0
  }

  /** A numeric column whose name sounds additive; other columns get totals only if there is none. */
  predicate HasAdditive(columns: seq<string>, rows: seq<Record>) {
    exists j :: 0 <= j < |columns| && AnyNumeric(rows, j) && IsAdditive(columns[j])
  }

  /** Every column with Decimals and no other numbers is left out of the totals in any case. */
  predicate DecimalsIrrelevant(columns: seq<string>, rows: seq<Record>) {
    forall k :: 0 <= k < |columns| && DecimalOnly(rows, k) ==> !IsAdditive(columns[k]) && HasAdditive(columns, rows)
  }

  function Targets(columns: seq<string>, rows: seq<Record>): seq<string> {
    TargetColumns(NumericColumns(columns, rows, |columns|))
  }

  /** The Decimals of every column that has a total cancel out. */
  predicate DecimalsCancel(columns: seq<string>, rows: seq<Record>) {
    forall c :: c in Targets(columns, rows) ==> DecimalSum(rows, IndexOf(columns, c)) == 0.0
  }

  lemma CachedNumeric(rows: seq<Record>, k: nat)
    ensures AnyNumeric(Map(JsonableRecord, rows), k) <==> AnyNumeric(rows, k) || AnyDecimal(rows, k)
  {
    var json := Map(JsonableRecord, rows);
    assert forall i :: 0 <= i < |rows| ==>
        (IsNumeric(At(json[i], k)) <==> IsNumeric(At(rows[i], k)) || At(rows[i], k).DecimalCell?);
  }

  /** A cached column sums to the fresh sum plus its Decimals. */
  lemma {:induction false} CachedSum(rows: seq<Record>, k: nat)
    ensures ColumnSum(Map(JsonableRecord, rows), k) == ColumnSum(rows, k) + DecimalSum(rows, k)
  {
    if rows != [] {
      var n := |rows| - 1;
      CachedSum(rows[..n], k);
      assert Map(JsonableRecord, rows)[..n] == Map(JsonableRecord, rows[..n]);
      assert At(JsonableRecord(rows[n]), k) == JsonableValue(At(rows[n], k));
    }
  }

  /** What column `n - 1` adds. */
  function Added(want: string -> bool, columns: seq<string>, rows: seq<Record>, n: nat): seq<string>
    requires 0 < n <= |columns|
  {
    if AnyNumeric(rows, n - 1) && want(columns[n - 1]) then [columns[n - 1]] else []
  }

  /** The numeric ones among the first `n` columns whose names satisfy `want`. */
  function Wanted(want: string -> bool, columns: seq<string>, rows: seq<Record>, n: nat): seq<string>
    requires n <= |columns|
  {
    if n == 0 then [] else Wanted(want, columns, rows, n - 1) + Added(want, columns, rows, n)
  }

  lemma {:induction false} WantedIs(want: string -> bool, columns: seq<string>, rows: seq<Record>, n: nat)
    requires n <= |columns|
    ensures Wanted(want, columns, rows, n) == Filter(want, NumericColumns(columns, rows, n))
  {
    if n > 0 {
      WantedIs(want, columns, rows, n - 1);
      var c := columns[n - 1];
      FilterAppend(want, NumericColumns(columns, rows, n - 1), if AnyNumeric(rows, n - 1) then [c] else []);
      FilterStep(want, [c]);
    }
  }

  predicate SomeNumeric(want: string -> bool, columns: seq<string>, rows: seq<Record>, n: nat)
    requires n <= |columns|
  {
    exists k :: 0 <= k < n && AnyNumeric(rows, k) && want(columns[k])
  }

  predicate SomeDecimalOnly(want: string -> bool, columns: seq<string>, rows: seq<Record>, n: nat)
    requires n <= |columns|
  {
    exists k :: 0 <= k < n && DecimalOnly(rows, k) && want(columns[k])
  }

  lemma {:induction false} WantedNonempty(want: string -> bool, columns: seq<string>, rows: seq<Record>, n: nat)
    requires n <= |columns|
    ensures Wanted(want, columns, rows, n) != [] <==> SomeNumeric(want, columns, rows, n)
  {
    if n > 0 {
      WantedNonempty(want, columns, rows, n - 1);
    }
  }

  lemma DecimalOnlyStep(want: string -> bool, columns: seq<string>, rows: seq<Record>, n: nat)
    requires 0 < n <= |columns|
    ensures SomeDecimalOnly(want, columns, rows, n)
      <==> SomeDecimalOnly(want, columns, rows, n - 1) || (DecimalOnly(rows, n - 1) && want(columns[n - 1]))
  {
  }

  /** `b` is `a`, or longer. */
  predicate Grown(more: bool, a: seq<string>, b: seq<string>) {
    if more then |a| < |b| else a == b
  }

  lemma GrownAppend(m: bool, a: seq<string>, b: seq<string>, n: bool, x: seq<string>, y: seq<string>)
    requires Grown(m, a, b) && Grown(n, x, y)
    ensures Grown(m || n, a + x, b + y)
  {
  }

  lemma AddedWhenCached(want: string -> bool, columns: seq<string>, rows: seq<Record>, n: nat)
    requires 0 < n <= |columns|
    ensures Grown(DecimalOnly(rows, n - 1) && want(columns[n - 1]),
                  Added(want, columns, rows, n), Added(want, columns, Map(JsonableRecord, rows), n))
  {
    CachedNumeric(rows, n - 1);
  }

  /** The cached rows have all numeric columns of the fresh rows, and more if some are numeric only by their Decimals. */
  lemma {:induction false} CachedColumns(want: string -> bool, columns: seq<string>, rows: seq<Record>, json: seq<Record>, n: nat)
    requires n <= |columns| && json == Map(JsonableRecord, rows)
    ensures Grown(SomeDecimalOnly(want, columns, rows, n), Wanted(want, columns, rows, n), Wanted(want, columns, json, n))
  {
    if n > 0 {
      CachedColumns(want, columns, rows, json, n - 1);
      AddedWhenCached(want, columns, rows, n);
      DecimalOnlyStep(want, columns, rows, n);
      GrownAppend(SomeDecimalOnly(want, columns, rows, n - 1), Wanted(want, columns, rows, n - 1), Wanted(want, columns, json, n - 1),
                  DecimalOnly(rows, n - 1) && want(columns[n - 1]), Added(want, columns, rows, n), Added(want, columns, json, n));
    }
  }

  predicate Any(c: string) {
    true
  }

  lemma SameTargets(columns: seq<string>, rows: seq<Record>)
    ensures Targets(columns, Map(JsonableRecord, rows)) == Targets(columns, rows) <==> DecimalsIrrelevant(columns, rows)
  {
    var n, json := |columns|, Map(JsonableRecord, rows);
    CachedColumns(IsAdditive, columns, rows, json, n);
    CachedColumns(Any, columns, rows, json, n);
    WantedNonempty(IsAdditive, columns, rows, n);
    WantedIs(IsAdditive, columns, rows, n);
    WantedIs(IsAdditive, columns, json, n);
    WantedIs(Any, columns, rows, n);
    WantedIs(Any, columns, json, n);
    FilterAll(Any, NumericColumns(columns, rows, n));
    FilterAll(Any, NumericColumns(columns, json, n));
    assert HasAdditive(columns, rows) <==> SomeNumeric(IsAdditive, columns, rows, n);
    assert DecimalsIrrelevant(columns, rows) <==>
      !SomeDecimalOnly(IsAdditive, columns, rows, n) && (HasAdditive(columns, rows) || !SomeDecimalOnly(Any, columns, rows, n));
    if !HasAdditive(columns, rows) && SomeDecimalOnly(IsAdditive, columns, rows, n) {
      AdditiveApart(NumericColumns(columns, rows, n), NumericColumns(columns, json, n));
    }
  }

  lemma AdditiveApart(a: seq<string>, b: seq<string>)
    requires Filter(IsAdditive, a) == [] && Filter(IsAdditive, b) != []
    ensures TargetColumns(a) != TargetColumns(b)
  {
    FilterMembers(IsAdditive, a);
    FilterMembers(IsAdditive, b);
    var c := Filter(IsAdditive, b)[0];
    assert c in Filter(IsAdditive, b);
    assert c !in a;
  }

  lemma SameSums(columns: seq<string>, rows: seq<Record>, targets: seq<string>)
    ensures SumsOf(columns, Map(JsonableRecord, rows), targets) == SumsOf(columns, rows, targets)
      <==> forall c :: c in targets ==> DecimalSum(rows, IndexOf(columns, c)) == 0.0
  {
    var a, b := SumsOf(columns, Map(JsonableRecord, rows), targets), SumsOf(columns, rows, targets);
    forall c | c in targets ensures a[c] == b[c] + DecimalSum(rows, IndexOf(columns, c)) {
      CachedSum(rows, IndexOf(columns, c));
    }
    assert forall c :: c in a <==> c in b;
    if c :| c in targets && DecimalSum(rows, IndexOf(columns, c)) != 0.0 {
      assert a[c] != b[c];
    }
  }

  /**
   * Totals over rows that went through the result cache are the same as over fresh rows exactly when there are none, or no
   * column with only Decimals among its numbers could get a total, and the Decimals of each column that gets one cancel out.
   */
  lemma FactsSameExactlyWhen(columns: seq<string>, rows: seq<Record>, rowCap: nat)
    ensures TotalFacts(columns, Map(JsonableRecord, rows), rowCap) == TotalFacts(columns, rows, rowCap)
      <==> rows == [] || columns == [] || |rows| >= rowCap || (DecimalsIrrelevant(columns, rows) && DecimalsCancel(columns, rows))
  {
    SameTargets(columns, rows);
    SameSums(columns, rows, Targets(columns, rows));
  }

  /** Totals over rows that went through the result cache are the same when no cell is a Decimal. */
  lemma FactsSameWithoutDecimals(columns: seq<string>, rows: seq<Record>, rowCap: nat)
    requires forall i, k :: 0 <= i < |rows| && 0 <= k < |rows[i]| ==> !rows[i][k].DecimalCell?
    ensures TotalFacts(columns, Map(JsonableRecord, rows), rowCap) == TotalFacts(columns, rows, rowCap)
  {
    forall k: nat ensures DecimalSum(rows, k) == 0.0 && !AnyDecimal(rows, k) {
      NoDecimals(rows, k);
    }
    FactsSameExactlyWhen(columns, rows, rowCap);
  }

  lemma {:induction false} NoDecimals(rows: seq<Record>, k: nat)
    requires forall i :: 0 <= i < |rows| ==> !At(rows[i], k).DecimalCell?
    ensures DecimalSum(rows, k) == 0.0
  {
    if rows != [] {
      NoDecimals(rows[..|rows| - 1], k);
    }
  }

  /** A Decimal column has no total when it is fresh, and one when it comes from the cache. */
  lemma DecimalTotalsDiffer(column: string, d: real)
    ensures TotalFacts([column], [[DecimalCell(d)]], DEFAULT_ROW_CAP).totals == map[]
    ensures TotalFacts([column], Map(JsonableRecord, [[DecimalCell(d)]]), DEFAULT_ROW_CAP).totals == map[column := d]
  {
    var fresh_: seq<Record> := [[DecimalCell(d)]];
    var json := Map(JsonableRecord, fresh_);
    assert !AnyNumeric(fresh_, 0);
    assert NumericColumns([column], fresh_, 1) == NumericColumns([column], fresh_, 0) == [];
    assert json[0] == JsonableRecord([DecimalCell(d)]) == [FloatCell(d)];
    assert IsNumeric(At(json[0], 0)) && AnyNumeric(json, 0);
    assert NumericColumns([column], json, 1) == NumericColumns([column], json, 0) + [column] == [column];
    assert ColumnSum(json[..0], 0) == 0.0;
    assert ColumnSum(json, 0) == d;
    FilterStep(IsAdditive, [column]);
    assert TargetColumns([column]) == [column];
  }
}
