/** The columns that rows are scoped by, spelled out: app/rbac/injector.py. */
module ScopeColumns {
  import opened Wrappers
  import opened Numerals
  import opened Injector

  // ---- Level columns ----

  /** The sales-force levels, a hundred apart. */
  predicate IsLevel(level: int) {
    100 <= level <= 600 && level % 100 == 0
  }

  function CodeColumn(level: int): string
    requires IsLevel(level)
  {
    "sales_hier" + Decimal(level / 100) + "_code"
  }

  function NameColumn(level: int): string
    requires IsLevel(level)
  {
    "sales_hier" + Decimal(level / 100) + "_name"
  }

  /** Level N00 is filtered on `sales_hierN_code`, and no other level on anything. */
  lemma LevelColumnIs(level: int)
    ensures LevelColumn(level) == if IsLevel(level) then Some(CodeColumn(level)) else None
  {
    var n := if IsLevel(level) then Decimal(level / 100) else "";
    if level == 100 {
      assert n == "1" && "sales_hier" + "1" + "_code" == "sales_hier1_code";
    } else if level == 200 {
      assert n == "2" && "sales_hier" + "2" + "_code" == "sales_hier2_code";
    } else if level == 300 {
      assert n == "3" && "sales_hier" + "3" + "_code" == "sales_hier3_code";
    } else if level == 400 {
      assert n == "4" && "sales_hier" + "4" + "_code" == "sales_hier4_code";
    } else if level == 500 {
      assert n == "5" && "sales_hier" + "5" + "_code" == "sales_hier5_code";
    } else if level == 600 {
      assert n == "6" && "sales_hier" + "6" + "_code" == "sales_hier6_code";
    }
  }

  // ---- What a table offers ----

  /** `geo_hierN_name`, `geo_hierN_code`, `sales_hierN_name` or `sales_hierN_code`, for N from 1 to 10. */
  ghost predicate IsHierColumn(column: string) {
    exists n: nat :: 1 <= n <= 10 && IsHierColumnOf(n, column)
  }

  function HierColumn(dimension: string, n: nat, kind: string): string {
    dimension + "_hier" + Decimal(n) + "_" + kind
  }

  predicate IsHierColumnOf(n: nat, column: string) {
    || column == HierColumn("geo", n, "name") || column == HierColumn("geo", n, "code")
    || column == HierColumn("sales", n, "name") || column == HierColumn("sales", n, "code")
  }

  /** The catalogue lists the column for the table, or the table is a fact table and the column one of the hierarchy columns. */
  ghost predicate HasColumn(cat: Catalog, name: string, column: string) {
    (name in cat.schema && column in cat.schema[name]) || (name in cat.facts && IsHierColumn(column))
  }

  /** The table can be filtered on the column: it has it, or it has the name column that goes with a code column. */
  ghost predicate Offers(cat: Catalog, name: string, column: string) {
    HasColumn(cat, name, column) || exists stem :: column == stem + "_code" && HasColumn(cat, name, stem + "_name")
  }

  lemma TenNumerals(n: nat)
    requires 1 <= n <= 10
    ensures Decimal(n) in {"1", "2", "3", "4", "5", "6", "7", "8", "9", "10"}
  {
    if n == 10 {
      assert Decimal(1) == "1" && Decimal(10) == Decimal(1) + [Digit(0)] == "10";
    }
  }

  lemma NumeralOfTen(s: string) returns (n: nat)
    requires s in {"1", "2", "3", "4", "5", "6", "7", "8", "9", "10"}
    ensures 1 <= n <= 10 && Decimal(n) == s
  {
    if s == "10" {
      assert Decimal(1) == "1" && Decimal(10) == Decimal(1) + [Digit(0)] == "10";
      return 10;
    }
    return s[0] as int - '0' as int;
  }

  lemma FamilyHas(n: nat, column: string)
    requires 1 <= n <= 10 && IsHierColumnOf(n, column)
    ensures column in HIER_FAMILY
  {
    TenNumerals(n);
    if column == HierColumn("geo", n, "name") {
      InFamily("geo", Decimal(n), "name");
    } else if column == HierColumn("geo", n, "code") {
      InFamily("geo", Decimal(n), "code");
    } else if column == HierColumn("sales", n, "name") {
      InFamily("sales", Decimal(n), "name");
    } else {
      InFamily("sales", Decimal(n), "code");
    }
  }

  lemma FamilyOnly(column: string)
    requires column in HIER_FAMILY
    ensures IsHierColumn(column)
  {
    var d, n, x :| d in {"geo", "sales"} && n in {"1", "2", "3", "4", "5", "6", "7", "8", "9", "10"}
      && x in {"name", "code"} && column == d + "_hier" + n + "_" + x;
    var k := NumeralOfTen(n);
    assert column == HierColumn(d, k, x) && IsHierColumnOf(k, column);
  }

  lemma FamilyMeaning(column: string)
    ensures column in HIER_FAMILY <==> IsHierColumn(column)
  {
    if n: nat :| 1 <= n <= 10 && IsHierColumnOf(n, column) {
      FamilyHas(n, column);
    }
    if column in HIER_FAMILY {
      FamilyOnly(column);
    }
  }

  lemma InFamily(d: string, n: string, x: string)
    requires d in {"geo", "sales"} && n in {"1", "2", "3", "4", "5", "6", "7", "8", "9", "10"} && x in {"name", "code"}
    ensures d + "_hier" + n + "_" + x in HIER_FAMILY
  {
  }

  /** What the injector tests before it filters a table on a column. */
  lemma OffersIs(cat: Catalog, name: string, column: string)
    ensures SupportsColumn(TableColumns(cat, name), column) <==> Offers(cat, name, column)
  {
    var columns := TableColumns(cat, name);
    forall c ensures c in columns <==> HasColumn(cat, name, c) {
      FamilyMeaning(c);
    }
    if |column| >= 5 && column[|column| - 5..] == "_code" {
      var stem := column[..|column| - 5];
      assert column == stem + "_code";
    }
    if stem :| column == stem + "_code" && HasColumn(cat, name, stem + "_name") {
      assert column[|column| - 5..] == "_code" && column[..|column| - 5] == stem;
    }
  }
}
