/** Which columns get a total, and which: `compute_total_facts` of app/domain/formatting.py, read off the cells. */
module ReportedTotals {
  import opened Characters
  import opened Relational
  import opened Sql
  import opened Totals

  // ---- What a total is ----

  /** What a cell contributes to the total of its column: an integer or a float its value, any other cell and a missing one nothing. */
  predicate Contributes(r: Record, k: nat, x: real) {
    if k < |r| && r[k].IntCell? then x == r[k].i as real
    else if k < |r| && r[k].FloatCell? then x == r[k].f
    else x == 0.0
  }

  /** The running sums: nothing at first, then row by row what the cell contributes. */
  predicate RunningSums(rows: seq<Record>, k: nat, sums: seq<real>) {
    && |sums| == |rows| + 1 && sums[0] == 0.0
    && forall i :: 0 <= i < |rows| ==> Contributes(rows[i], k, sums[i + 1] - sums[i])
  }

  ghost predicate IsTotal(rows: seq<Record>, k: nat, total: real) {
    exists sums :: RunningSums(rows, k, sums) && sums[|rows|] == total
  }

  lemma SumsStep(rows: seq<Record>, k: nat, sums: seq<real>)
    requires rows != []
    ensures RunningSums(rows, k, sums)
      <==> |sums| == |rows| + 1 && RunningSums(rows[..|rows| - 1], k, sums[..|rows|])
           && Contributes(rows[|rows| - 1], k, sums[|rows|] - sums[|rows| - 1])
  {
    var n := |rows| - 1;
    if |sums| == |rows| + 1 {
      if RunningSums(rows[..n], k, sums[..|rows|]) && Contributes(rows[n], k, sums[|rows|] - sums[n]) {
        forall i | 0 <= i < |rows| ensures Contributes(rows[i], k, sums[i + 1] - sums[i]) {
          assert i < n ==> Contributes(rows[..n][i], k, sums[..n + 1][i + 1] - sums[..n + 1][i]);
        }
      }
    }
  }

  /** The sum of a column is the one total it has. */
  lemma {:induction false} ColumnSumIs(rows: seq<Record>, k: nat, total: real)
    ensures IsTotal(rows, k, total) <==> total == ColumnSum(rows, k)
  {
    if rows == [] {
      assert RunningSums(rows, k, [0.0]);
    } else {
      var n := |rows| - 1;
      var before := ColumnSum(rows[..n], k);
      ColumnSumIs(rows[..n], k, before);
      if total == ColumnSum(rows, k) {
        var sums :| RunningSums(rows[..n], k, sums) && sums[n] == before;
        var more := sums + [total];
        assert more[..|rows|] == sums;
        SumsStep(rows, k, more);
      }
      if sums :| RunningSums(rows, k, sums) && sums[|rows|] == total {
        SumsStep(rows, k, sums);
        assert IsTotal(rows[..n], k, sums[..|rows|][n]);
        ColumnSumIs(rows[..n], k, sums[n]);
      }
    }
  }

  // ---- Which columns have one ----

  predicate HasNumber(rows: seq<Record>, k: nat) {
    exists i :: 0 <= i < |rows| && k < |rows[i]| && (rows[i][k].IntCell? || rows[i][k].FloatCell?)
  }

  /** The word stands in the name at position `p`, in any case. */
  predicate StandsAt(name: string, word: string, p: int) {
    0 <= p <= |name| - |word| && SameName(name[p..p + |word|], word)
  }

  /** A word for a quantity that can be added up. */
  predicate IsQuantity(word: string) {
    || word == "revenue" || word == "value" || word == "amount" || word == "qty" || word == "quantity" || word == "count"
    || word == "sales" || word == "net" || word == "gross" || word == "sum" || word == "total"
  }

  ghost predicate SoundsAdditive(name: string) {
    exists word, p :: IsQuantity(word) && StandsAt(name, word, p)
  }

  predicate IsFirst(columns: seq<string>, k: nat, c: string) {
    k < |columns| && columns[k] == c && c !in columns[..k]
  }

  lemma {:induction false} FirstIs(columns: seq<string>, k: nat, c: string)
    requires IsFirst(columns, k, c)
    ensures IndexOf(columns, c) == k
  {
    if k > 0 {
      assert columns[0] in columns[..k];
      assert columns[..k][1..] == columns[1..][..k - 1];
      FirstIs(columns[1..], k - 1, c);
    }
  }

  /** The column gets a total: it has a number, and either its name sounds additive or that of no column with a number does. */
  ghost predicate GetsTotal(columns: seq<string>, rows: seq<Record>, c: string) {
    && (exists k :: 0 <= k < |columns| && columns[k] == c && HasNumber(rows, k))
    && (SoundsAdditive(c) || forall j :: 0 <= j < |columns| && HasNumber(rows, j) ==> !SoundsAdditive(columns[j]))
  }

  predicate NoUpperCase(s: string) {
    forall k :: 0 <= k < |s| ==> !('A' <= s[k] <= 'Z')
  }

  lemma LowerPrefix(name: string, word: string)
    requires NoUpperCase(word)
    ensures word <= Lower(name) <==> StandsAt(name, word, 0)
  {
    if |word| <= |name| {
      forall k | 0 <= k < |word| ensures Lower(name)[k] == word[k] <==> SameLetter(name[k], word[k]) {
      }
      if StandsAt(name, word, 0) {
        forall k | 0 <= k < |word| ensures Lower(name)[k] == word[k] {
          assert SameLetter(name[0..0 + |word|][k], word[k]);
        }
        assert Lower(name)[..|word|] == word;
      }
      if word <= Lower(name) {
        forall k | 0 <= k < |word| ensures SameLetter(name[0..0 + |word|][k], word[k]) {
          assert Lower(name)[k] == word[k];
        }
      }
    }
  }

  lemma {:induction false} ContainsIs(name: string, word: string)
    requires NoUpperCase(word)
    ensures Contains(Lower(name), word) <==> exists p :: StandsAt(name, word, p)
  {
    LowerPrefix(name, word);
    if name != "" {
      assert Lower(name)[1..] == Lower(name[1..]);
      ContainsIs(name[1..], word);
      forall p ensures StandsAt(name[1..], word, p) <==> p >= 0 && StandsAt(name, word, p + 1) {
        if 0 <= p <= |name| - 1 - |word| {
          assert name[1..][p..p + |word|] == name[p + 1..p + 1 + |word|];
        }
      }
      if p :| StandsAt(name, word, p) {
        assert p > 0 ==> StandsAt(name[1..], word, p - 1);
      }
      if p :| StandsAt(name[1..], word, p) {
        assert StandsAt(name, word, p + 1);
      }
    }
  }

  lemma HintsAre(k: nat)
    requires k < |ADDITIVE_HINTS|
    ensures IsQuantity(ADDITIVE_HINTS[k]) && NoUpperCase(ADDITIVE_HINTS[k])
  {
  }

  lemma QuantityHinted(word: string) returns (k: nat)
    requires IsQuantity(word)
    ensures k < |ADDITIVE_HINTS| && ADDITIVE_HINTS[k] == word
  {
    var H := ADDITIVE_HINTS;
    assert H[0] == "revenue" && H[1] == "value" && H[2] == "amount" && H[3] == "qty" && H[4] == "quantity" && H[5] == "count";
    assert H[6] == "sales" && H[7] == "net" && H[8] == "gross" && H[9] == "sum" && H[10] == "total";
    k :| 0 <= k < |ADDITIVE_HINTS| && ADDITIVE_HINTS[k] == word;
  }

  lemma AdditiveIs(name: string)
    ensures IsAdditive(name) <==> SoundsAdditive(name)
  {
    if IsAdditive(name) {
      var k :| 0 <= k < |ADDITIVE_HINTS| && Contains(Lower(name), ADDITIVE_HINTS[k]);
      HintsAre(k);
      ContainsIs(name, ADDITIVE_HINTS[k]);
    }
    if word, p :| IsQuantity(word) && StandsAt(name, word, p) {
      var k := QuantityHinted(word);
      HintsAre(k);
      ContainsIs(name, word);
    }
  }

  lemma NumberIs(rows: seq<Record>, k: nat)
    ensures AnyNumeric(rows, k) <==> HasNumber(rows, k)
  {
    assert forall i :: 0 <= i < |rows| ==> (IsNumeric(At(rows[i], k)) <==> k < |rows[i]| && (rows[i][k].IntCell? || rows[i][k].FloatCell?));
  }

  lemma {:induction false} NumericMembers(columns: seq<string>, rows: seq<Record>, n: nat, c: string)
    requires n <= |columns|
    ensures c in NumericColumns(columns, rows, n) <==> exists k :: 0 <= k < n && columns[k] == c && HasNumber(rows, k)
  {
    if n > 0 {
      NumericMembers(columns, rows, n - 1, c);
      NumberIs(rows, n - 1);
    }
  }

  lemma TargetsAre(columns: seq<string>, rows: seq<Record>, c: string)
    ensures c in Targets(columns, rows) <==> GetsTotal(columns, rows, c)
  {
    var numeric := NumericColumns(columns, rows, |columns|);
    FilterMembers(IsAdditive, numeric);
    forall name ensures name in numeric <==> exists k :: 0 <= k < |columns| && columns[k] == name && HasNumber(rows, k) {
      NumericMembers(columns, rows, |columns|, name);
    }
    forall name ensures IsAdditive(name) <==> SoundsAdditive(name) {
      AdditiveIs(name);
    }
    var additive := Filter(IsAdditive, numeric);
    if additive == [] {
      forall j | 0 <= j < |columns| && HasNumber(rows, j) ensures !SoundsAdditive(columns[j]) {
        assert columns[j] in numeric && columns[j] !in additive;
      }
    } else {
      assert additive[0] in additive;
      var j :| 0 <= j < |columns| && columns[j] == additive[0] && HasNumber(rows, j);
      assert SoundsAdditive(columns[j]);
    }
  }

  /**
   The facts refuse totals exactly for results of at least `rowCap` rows. Otherwise exactly the columns that get a total have one,
   and it is the total of the first column of that name.
   */
  lemma TotalsAre(columns: seq<string>, rows: seq<Record>, rowCap: nat)
    ensures var facts := TotalFacts(columns, rows, rowCap);
      && facts.rowCount == |rows|
      && (facts.truncated <==> rows != [] && columns != [] && |rows| >= rowCap)
      && (forall c :: c in facts.totals <==> !facts.truncated && GetsTotal(columns, rows, c))
      && (forall c, k :: c in facts.totals && IsFirst(columns, k, c) ==> IsTotal(rows, k, facts.totals[c]))
  {
    var facts := TotalFacts(columns, rows, rowCap);
    forall c ensures c in facts.totals <==> !facts.truncated && GetsTotal(columns, rows, c) {
      TargetsAre(columns, rows, c);
    }
    forall c, k | c in facts.totals && IsFirst(columns, k, c) ensures IsTotal(rows, k, facts.totals[c]) {
      FirstIs(columns, k, c);
      ColumnSumIs(rows, k, facts.totals[c]);
    }
  }

  /** One more row adds to a total what its cell contributes. */
  lemma TotalGrows(columns: seq<string>, rows: seq<Record>, row: Record, rowCap: nat, c: string, k: nat)
    requires IsFirst(columns, k, c)
    requires c in TotalFacts(columns, rows, rowCap).totals && c in TotalFacts(columns, rows + [row], rowCap).totals
    ensures Contributes(row, k, TotalFacts(columns, rows + [row], rowCap).totals[c] - TotalFacts(columns, rows, rowCap).totals[c])
  {
    FirstIs(columns, k, c);
    assert (rows + [row])[..|rows|] == rows;
  }
}
