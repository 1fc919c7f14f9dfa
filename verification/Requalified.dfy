/** Which columns the fixer requalifies, and with what name: app/sqlsafety/fixer.py read off the statement itself. */
module Requalified {
  import opened Wrappers
  import opened Sql
  import opened Injector
  import opened Fixer

  // ---- The names of a statement ----

  /** FROM item `i` of query `n` is a table. */
  predicate IsTable(t: Tree, n: int, i: int) {
    0 <= n < |t.nodes| && t.nodes[n].Select? && 0 <= i < |t.nodes[n].from| && t.nodes[n].from[i].source.Base?
  }

  function TableAt(t: Tree, n: int, i: int): Source
    requires IsTable(t, n, i)
  {
    t.nodes[n].from[i].source
  }

  predicate Before(n: int, i: int, m: int, j: int) {
    n < m || (n == m && i < j)
  }

  /** The table goes by this name: its alias, or its own name if it has none. */
  predicate GoesBy(s: Source, name: string)
    requires s.Base?
  {
    if s.as_ != "" then s.as_ == name else s.name == name
  }

  /** Item `i` of query `n` is the last table of the statement that goes by this name. */
  ghost predicate IsLast(t: Tree, n: int, i: int, name: string) {
    && IsTable(t, n, i) && GoesBy(TableAt(t, n, i), name)
    && forall m, j :: IsTable(t, m, j) && GoesBy(TableAt(t, m, j), name) ==> !Before(n, i, m, j)
  }

  /** The statement binds the name to the table. */
  ghost predicate Binds(t: Tree, name: string, table: string) {
    exists n, i :: IsLast(t, n, i, name) && TableAt(t, n, i).name == table
  }

  /** What a qualifier means: the table that the statement binds to it, else the one that the schema gives the alias to. */
  ghost predicate Means(cat: Catalog, t: Tree, qualifier: string, table: string) {
    || (Binds(t, qualifier, table) && table != "")
    || ((forall own :: Binds(t, qualifier, own) ==> own == "")
        && qualifier in cat.aliasTable && cat.aliasTable[qualifier] == table)
  }

  ghost predicate Occurs(t: Tree, table: string) {
    exists n, i :: IsTable(t, n, i) && TableAt(t, n, i).name == table
  }

  /** The column has a qualifier that means another table than the one that alone owns the column, and the statement has the owner
      under some name. */
  ghost predicate Misplaced(cat: Catalog, t: Tree, c: Column) {
    && c.qualifier != "" && c.name != "" && c.name !in cat.ambiguous && c.name in cat.columnTable
    && Occurs(t, cat.columnTable[c.name])
    && (exists table :: Means(cat, t, c.qualifier, table) && table != cat.columnTable[c.name])
    && (exists name :: Binds(t, name, cat.columnTable[c.name]))
  }

  /** Some table goes by `a` before any goes by `b`. */
  ghost predicate Earlier(t: Tree, a: string, b: string) {
    exists n, i :: IsTable(t, n, i) && GoesBy(TableAt(t, n, i), a) && forall m, j ::
      IsTable(t, m, j) && GoesBy(TableAt(t, m, j), b) ==> Before(n, i, m, j)
  }

  ghost predicate IsAliasOf(t: Tree, name: string, table: string) {
    Binds(t, name, table) && name != table
  }

  /** The name to call a table by: the earliest of its aliases, or its own name if it has none. */
  ghost predicate IsNameFor(t: Tree, table: string, name: string) {
    && Binds(t, name, table)
    && ((exists alias :: IsAliasOf(t, alias, table)) ==> name != table)
    && forall alias :: IsAliasOf(t, alias, table) && alias != name ==> Earlier(t, name, alias)
  }

  // ---- The tables in the order of the walk ----

  function PlaceInFrom(from: seq<FromItem>, i: nat): nat
    requires i <= |from|
  {
    |FromTables(from[..i])|
  }

  function Place(t: Tree, n: int, i: int): nat
    requires IsTable(t, n, i)
  {
    |TablesUpTo(t.nodes, n)| + PlaceInFrom(t.nodes[n].from, i)
  }

  function AllTables(t: Tree): seq<Source> {
    TablesUpTo(t.nodes, |t.nodes|)
  }

  lemma {:induction false} FromAt(from: seq<FromItem>, i: nat)
    requires i < |from| && from[i].source.Base?
    ensures PlaceInFrom(from, i) < |FromTables(from)| && FromTables(from)[PlaceInFrom(from, i)] == from[i].source
  {
    if i > 0 {
      FromAt(from[1..], i - 1);
      assert from[..i][1..] == from[1..][..i - 1];
    }
  }

  lemma FromInOrder(from: seq<FromItem>, i: nat, j: nat)
    requires i < j <= |from| && from[i].source.Base?
    ensures PlaceInFrom(from, i) < PlaceInFrom(from, j)
  {
    FromAt(from[..j], i);
    assert from[..j][..i] == from[..i];
  }

  lemma {:induction false} FromOf(from: seq<FromItem>, p: nat) returns (i: nat)
    requires p < |FromTables(from)|
    ensures i < |from| && from[i].source.Base? && PlaceInFrom(from, i) == p
  {
    if from[0].source.Base? && p == 0 {
      i := 0;
    } else {
      var k := FromOf(from[1..], if from[0].source.Base? then p - 1 else p);
      i := k + 1;
      assert from[..i][1..] == from[1..][..k];
    }
  }

  lemma {:induction false} TablesGrow(nodes: seq<Node>, n: nat, k: nat)
    requires n <= k <= |nodes|
    ensures TablesUpTo(nodes, n) <= TablesUpTo(nodes, k)
  {
    if n < k {
      TablesGrow(nodes, n, k - 1);
    }
  }

  lemma TableInPlace(t: Tree, n: int, i: int)
    requires IsTable(t, n, i)
    ensures Place(t, n, i) < |TablesUpTo(t.nodes, n + 1)| <= |AllTables(t)|
    ensures AllTables(t)[Place(t, n, i)] == TableAt(t, n, i)
  {
    FromAt(t.nodes[n].from, i);
    TablesGrow(t.nodes, n + 1, |t.nodes|);
  }

  lemma PlacesInOrder(t: Tree, n: int, i: int, m: int, j: int)
    requires IsTable(t, n, i) && IsTable(t, m, j)
    ensures Before(n, i, m, j) <==> Place(t, n, i) < Place(t, m, j)
  {
    if n < m {
      LaterPlace(t, n, i, m, j);
    } else if m < n {
      LaterPlace(t, m, j, n, i);
    } else if i < j {
      FromInOrder(t.nodes[n].from, i, j);
    } else if j < i {
      FromInOrder(t.nodes[n].from, j, i);
    }
  }

  lemma LaterPlace(t: Tree, n: int, i: int, m: int, j: int)
    requires IsTable(t, n, i) && IsTable(t, m, j) && n < m
    ensures Place(t, n, i) < Place(t, m, j)
  {
    TableInPlace(t, n, i);
    TablesGrow(t.nodes, n + 1, m);
  }

  lemma {:induction false} TableOfPlace(t: Tree, k: nat, p: nat) returns (n: int, i: int)
    requires k <= |t.nodes| && p < |TablesUpTo(t.nodes, k)|
    ensures IsTable(t, n, i) && Place(t, n, i) == p
  {
    if p < |TablesUpTo(t.nodes, k - 1)| {
      n, i := TableOfPlace(t, k - 1, p);
    } else {
      n := k - 1;
      i := FromOf(t.nodes[n].from, p - |TablesUpTo(t.nodes, n)|);
    }
  }

  // ---- The alias map ----

  predicate NamedAt(tables: seq<Source>, k: nat, p: int, name: string)
    requires k <= |tables|
  {
    0 <= p < k && tables[p].AliasOrName() == name
  }

  lemma {:induction false} GetPut(m: AliasMap, key: string, value: string, name: string)
    ensures Get(Put(m, key, value), name) == if name == key then Some(value) else Get(m, name)
  {
    if m != [] && m[0].0 != key {
      GetPut(m[1..], key, value, name);
    }
  }

  /** Table `p` is the last of the first `k` that goes by this name. */
  ghost predicate LastNamedAt(tables: seq<Source>, k: nat, p: int, name: string)
    requires k <= |tables|
  {
    NamedAt(tables, k, p, name) && forall q :: NamedAt(tables, k, q, name) ==> q <= p
  }

  ghost predicate Occurring(tables: seq<Source>, k: nat, name: string)
    requires k <= |tables|
  {
    exists p :: NamedAt(tables, k, p, name)
  }

  lemma NamedStep(tables: seq<Source>, k: nat, next: nat, name: string)
    requires k < |tables| && next == k + 1
    ensures forall q :: NamedAt(tables, next, q, name) ==> NamedAt(tables, k, q, name) || q == k
    ensures forall q :: NamedAt(tables, k, q, name) ==> NamedAt(tables, next, q, name)
    ensures NamedAt(tables, next, k, name) <==> tables[k].AliasOrName() == name
    ensures Occurring(tables, next, name) <==> Occurring(tables, k, name) || tables[k].AliasOrName() == name
  {
    if p :| NamedAt(tables, k, p, name) {
      assert NamedAt(tables, next, p, name);
    }
    if p :| NamedAt(tables, next, p, name) {
      assert p == k || NamedAt(tables, k, p, name);
    }
  }

  /** The map holds the last table of the name. */
  ghost predicate HoldsLast(tables: seq<Source>, k: nat, name: string, held: Option<string>)
    requires k <= |tables|
  {
    if held.None? then !Occurring(tables, k, name)
    else exists p :: LastNamedAt(tables, k, p, name) && held == Some(NameOf(tables[p]))
  }

  lemma HoldsLastStep(tables: seq<Source>, k: nat, l: nat, name: string, held: Option<string>)
    requires k < |tables| && l == k + 1 && HoldsLast(tables, k, name, held)
    ensures HoldsLast(tables, l, name, if name == tables[k].AliasOrName() then Some(NameOf(tables[k])) else held)
  {
    NamedStep(tables, k, l, name);
    if tables[k].AliasOrName() == name {
      assert LastNamedAt(tables, l, k, name);
    } else if held.Some? {
      var p :| LastNamedAt(tables, k, p, name) && held == Some(NameOf(tables[p]));
      assert LastNamedAt(tables, l, p, name);
    }
  }

  lemma {:induction false} GetIsLast(tables: seq<Source>, k: nat, name: string)
    requires k <= |tables|
    ensures HoldsLast(tables, k, name, Get(AliasesOf(tables, k), name))
  {
    if k > 0 {
      var l: nat := k - 1;
      GetIsLast(tables, l, name);
      HoldsLastStep(tables, l, k, name, Get(AliasesOf(tables, l), name));
      GetPut(AliasesOf(tables, l), tables[l].AliasOrName(), NameOf(tables[l]), name);
    }
  }

  /** Some table before all those named `b` is named `a`. */
  ghost predicate NamedEarlier(tables: seq<Source>, k: nat, a: string, b: string)
    requires k <= |tables|
  {
    exists p :: NamedAt(tables, k, p, a) && forall q :: NamedAt(tables, k, q, b) ==> p < q
  }

  function Keys(m: AliasMap): seq<string> {
    seq(|m|, i requires 0 <= i < |m| => m[i].0)
  }

  lemma {:induction false} PutKeys(m: AliasMap, key: string, value: string)
    ensures Keys(Put(m, key, value)) == Extended(Keys(m), key)
  {
    if m != [] {
      assert Keys(m) == [m[0].0] + Keys(m[1..]);
      if m[0].0 != key {
        PutKeys(m[1..], key, value);
        var r := Put(m, key, value);
        assert Keys(r) == [m[0].0] + Keys(r[1..]);
      }
    } else {
      assert Keys(Put(m, key, value)) == [key];
    }
  }

  function Extended(keys: seq<string>, key: string): seq<string> {
    if key in keys then keys else keys + [key]
  }

  /** The names of the first `k` tables, in the order of first use. */
  ghost predicate InOrder(tables: seq<Source>, k: nat, keys: seq<string>)
    requires k <= |tables|
  {
    && (forall name :: name in keys <==> Occurring(tables, k, name))
    && forall a, b :: 0 <= a < b < |keys| ==> NamedEarlier(tables, k, keys[a], keys[b])
  }

  lemma PutInOrder(tables: seq<Source>, k: nat, l: nat, m: AliasMap)
    requires k < |tables| && l == k + 1 && InOrder(tables, k, Keys(m))
    ensures InOrder(tables, l, Keys(Put(m, tables[k].AliasOrName(), NameOf(tables[k]))))
  {
    InOrderStep(tables, k, l, Keys(m));
    PutKeys(m, tables[k].AliasOrName(), NameOf(tables[k]));
  }

  lemma NothingInOrder(tables: seq<Source>)
    ensures InOrder(tables, 0, [])
  {
  }

  lemma {:induction false} KeysInOrder(tables: seq<Source>, k: nat)
    requires k <= |tables|
    ensures InOrder(tables, k, Keys(AliasesOf(tables, k)))
  {
    if k == 0 {
      NothingInOrder(tables);
      assert Keys(AliasesOf(tables, k)) == [];
    } else {
      var l: nat := k - 1;
      KeysInOrder(tables, l);
      PutInOrder(tables, l, k, AliasesOf(tables, l));
    }
  }

  lemma InOrderStep(tables: seq<Source>, k: nat, l: nat, keys: seq<string>)
    requires k < |tables| && l == k + 1 && InOrder(tables, k, keys)
    ensures InOrder(tables, l, Extended(keys, tables[k].AliasOrName()))
  {
    var next := Extended(keys, tables[k].AliasOrName());
    forall name ensures name in next <==> Occurring(tables, l, name) {
      NamedStep(tables, k, l, name);
    }
    forall a, b | 0 <= a < b < |next| ensures NamedEarlier(tables, l, next[a], next[b]) {
      assert next[a] == keys[a] && next[a] in keys;
      if b < |keys| {
        EarlierStays(tables, k, l, keys[a], keys[b]);
      } else {
        EarlierThanNew(tables, k, l, keys[a]);
      }
    }
  }

  lemma EarlierStays(tables: seq<Source>, k: nat, l: nat, a: string, b: string)
    requires k < |tables| && l == k + 1 && NamedEarlier(tables, k, a, b)
    ensures NamedEarlier(tables, l, a, b)
  {
    var p :| NamedAt(tables, k, p, a) && forall q :: NamedAt(tables, k, q, b) ==> p < q;
    NamedStep(tables, k, l, a);
    NamedStep(tables, k, l, b);
    assert NamedAt(tables, l, p, a);
  }

  lemma EarlierThanNew(tables: seq<Source>, k: nat, l: nat, a: string)
    requires k < |tables| && l == k + 1 && Occurring(tables, k, a) && !Occurring(tables, k, tables[k].AliasOrName())
    ensures NamedEarlier(tables, l, a, tables[k].AliasOrName())
  {
    var p :| NamedAt(tables, k, p, a);
    NamedStep(tables, k, l, a);
    NamedStep(tables, k, l, tables[k].AliasOrName());
    assert NamedAt(tables, l, p, a);
  }

  /** Position `a` of the map holds an alias of the table. */
  predicate AliasAt(m: AliasMap, table: string, a: int) {
    0 <= a < |m| && m[a].1 == table && m[a].0 != table
  }

  /** The first alias, else the bare name, else the default. */
  lemma {:induction false} QualifierIs(table: string, m: AliasMap, match_: Option<string>)
    ensures (exists a :: AliasAt(m, table, a)) ==>
      exists a :: AliasAt(m, table, a) && QualifierFor(table, m, match_) == Some(m[a].0) && forall b :: AliasAt(m, table, b) ==> a <= b
    ensures !(exists a :: AliasAt(m, table, a)) ==> QualifierFor(table, m, match_) == if (table, table) in m then Some(table) else match_
  {
    if m != [] {
      var rest := m[1..];
      var next := if m[0].1 == table && m[0].0 == table then Some(m[0].0) else match_;
      QualifierIs(table, rest, next);
      forall a ensures a > 0 ==> (AliasAt(m, table, a) <==> AliasAt(rest, table, a - 1)) {
      }
      assert m == [m[0]] + rest;
      if AliasAt(m, table, 0) {
      } else if a :| AliasAt(m, table, a) {
        assert AliasAt(rest, table, a - 1);
        var b :| AliasAt(rest, table, b) && QualifierFor(table, rest, next) == Some(rest[b].0)
          && forall c :: AliasAt(rest, table, c) ==> b <= c;
        assert AliasAt(m, table, b + 1) && m[b + 1] == rest[b];
      } else {
        forall a ensures !AliasAt(rest, table, a) {
          assert !AliasAt(m, table, a + 1);
        }
      }
    }
  }

  // ---- What the fixer does ----

  lemma LastIs(t: Tree, n: int, i: int, name: string)
    requires IsTable(t, n, i)
    ensures Place(t, n, i) < |AllTables(t)|
    ensures IsLast(t, n, i, name) <==> LastNamedAt(AllTables(t), |AllTables(t)|, Place(t, n, i), name)
  {
    var tables := AllTables(t);
    TableInPlace(t, n, i);
    if IsLast(t, n, i, name) {
      forall q | NamedAt(tables, |tables|, q, name) ensures q <= Place(t, n, i) {
        var m, j := TableOfPlace(t, |t.nodes|, q);
        TableInPlace(t, m, j);
        PlacesInOrder(t, n, i, m, j);
      }
    }
    if LastNamedAt(tables, |tables|, Place(t, n, i), name) {
      forall m, j | IsTable(t, m, j) && GoesBy(TableAt(t, m, j), name) ensures !Before(n, i, m, j) {
        TableInPlace(t, m, j);
        PlacesInOrder(t, n, i, m, j);
        assert NamedAt(tables, |tables|, Place(t, m, j), name);
      }
    }
  }

  /** The map and the statement agree on what a name is bound to. */
  lemma MapBinds(t: Tree, name: string, table: string)
    ensures Get(AliasMapOf(t), name) == Some(table) <==> Binds(t, name, table)
  {
    var tables := AllTables(t);
    GetIsLast(tables, |tables|, name);
    if Get(AliasMapOf(t), name) == Some(table) {
      var p :| LastNamedAt(tables, |tables|, p, name) && NameOf(tables[p]) == table;
      var n, i := TableOfPlace(t, |t.nodes|, p);
      TableInPlace(t, n, i);
      LastIs(t, n, i, name);
    }
    if n, i :| IsLast(t, n, i, name) && TableAt(t, n, i).name == table {
      TableInPlace(t, n, i);
      LastIs(t, n, i, name);
      assert Occurring(tables, |tables|, name);
      var p :| LastNamedAt(tables, |tables|, p, name) && Get(AliasMapOf(t), name) == Some(NameOf(tables[p]));
      assert p == Place(t, n, i);
    }
  }

  lemma PresentOccurs(t: Tree, table: string)
    ensures table in PresentIn(t) <==> Occurs(t, table)
  {
    var tables := AllTables(t);
    if table in PresentIn(t) {
      var p: nat :| p < |tables| && NameOf(tables[p]) == table;
      var n, i := TableOfPlace(t, |t.nodes|, p);
      TableInPlace(t, n, i);
    }
    if Occurs(t, table) {
      var n, i :| IsTable(t, n, i) && TableAt(t, n, i).name == table;
      TableInPlace(t, n, i);
    }
  }

  lemma TableOfMeans(cat: Catalog, t: Tree, qualifier: string)
    ensures forall table :: TableOf(cat, AliasMapOf(t), qualifier) == Some(table) <==> Means(cat, t, qualifier, table)
  {
    forall table ensures Get(AliasMapOf(t), qualifier) == Some(table) <==> Binds(t, qualifier, table) {
      MapBinds(t, qualifier, table);
    }
  }

  lemma {:induction false} EntryFound(m: AliasMap, a: nat)
    requires DistinctKeys(m) && a < |m|
    ensures Get(m, m[a].0) == Some(m[a].1)
  {
    if a > 0 {
      EntryFound(m[1..], a - 1);
    }
  }

  lemma {:induction false} EntryOf(m: AliasMap, key: string) returns (a: nat)
    requires Get(m, key).Some?
    ensures a < |m| && m[a] == (key, Get(m, key).value)
  {
    if m[0].0 == key {
      a := 0;
    } else {
      var b := EntryOf(m[1..], key);
      a := b + 1;
    }
  }

  lemma AliasBinds(t: Tree, table: string, name: string)
    ensures IsAliasOf(t, name, table) <==> exists a :: AliasAt(AliasMapOf(t), table, a) && AliasMapOf(t)[a].0 == name
  {
    var m, tables := AliasMapOf(t), AllTables(t);
    AliasesDistinct(tables, |tables|);
    MapBinds(t, name, table);
    if IsAliasOf(t, name, table) {
      var a := EntryOf(m, name);
      assert AliasAt(m, table, a);
    }
    if a :| AliasAt(m, table, a) && m[a].0 == name {
      EntryFound(m, a);
    }
  }

  lemma NamedEarlierIs(t: Tree, a: string, b: string)
    requires NamedEarlier(AllTables(t), |AllTables(t)|, a, b)
    ensures Earlier(t, a, b)
  {
    var tables := AllTables(t);
    var p :| NamedAt(tables, |tables|, p, a) && forall q :: NamedAt(tables, |tables|, q, b) ==> p < q;
    var n, i := TableOfPlace(t, |t.nodes|, p);
    TableInPlace(t, n, i);
    forall m, j | IsTable(t, m, j) && GoesBy(TableAt(t, m, j), b) ensures Before(n, i, m, j) {
      TableInPlace(t, m, j);
      assert NamedAt(tables, |tables|, Place(t, m, j), b);
      PlacesInOrder(t, n, i, m, j);
    }
  }

  /** The chosen qualifier is the name to call the table by; there is one exactly when the statement binds a name to the table. */
  lemma QualifierIsName(t: Tree, table: string)
    ensures var q := QualifierFor(table, AliasMapOf(t), None);
      if exists name :: Binds(t, name, table) then q.Some? && IsNameFor(t, table, q.value) else q.None?
  {
    var m, tables := AliasMapOf(t), AllTables(t);
    var q := QualifierFor(table, m, None);
    AliasesDistinct(tables, |tables|);
    QualifierIs(table, m, None);
    if a :| AliasAt(m, table, a) {
      FirstAliasIsName(t, table);
    } else {
      forall name ensures !IsAliasOf(t, name, table) {
        AliasBinds(t, table, name);
      }
      MapBinds(t, table, table);
      if (table, table) in m {
        var a: nat :| a < |m| && m[a] == (table, table);
        EntryFound(m, a);
      } else if name :| Binds(t, name, table) {
        assert !IsAliasOf(t, name, table);
        var a := EntryOf(m, table);
        assert false;
      }
    }
  }

  lemma EntriesInOrder(t: Tree, a: nat, b: nat)
    requires a < b < |AliasMapOf(t)|
    ensures Earlier(t, AliasMapOf(t)[a].0, AliasMapOf(t)[b].0)
  {
    var m, tables := AliasMapOf(t), AllTables(t);
    KeysInOrder(tables, |tables|);
    assert Keys(m)[a] == m[a].0 && Keys(m)[b] == m[b].0;
    NamedEarlierIs(t, m[a].0, m[b].0);
  }

  lemma FirstAliasIsName(t: Tree, table: string)
    requires exists a :: AliasAt(AliasMapOf(t), table, a)
    ensures var q := QualifierFor(table, AliasMapOf(t), None); q.Some? && IsNameFor(t, table, q.value)
  {
    var m, tables := AliasMapOf(t), AllTables(t);
    AliasesDistinct(tables, |tables|);
    QualifierIs(table, m, None);
    var a :| AliasAt(m, table, a) && QualifierFor(table, m, None) == Some(m[a].0) && forall b :: AliasAt(m, table, b) ==> a <= b;
    EntryFound(m, a);
    MapBinds(t, m[a].0, table);
    forall alias | IsAliasOf(t, alias, table) && alias != m[a].0 ensures Earlier(t, m[a].0, alias) {
      AliasBinds(t, table, alias);
      var b :| AliasAt(m, table, b) && m[b].0 == alias;
      EntriesInOrder(t, a, b);
    }
  }

  /** A column is requalified exactly when it is misplaced, and then by the name to call its owner by. */
  lemma RequalifiedExactlyWhen(cat: Catalog, t: Tree, k: nat)
    requires k < |t.cols|
    ensures var c, r := t.cols[k], FixTree(cat, t).cols[k];
      if Misplaced(cat, t, c) then r.name == c.name && IsNameFor(t, cat.columnTable[c.name], r.qualifier) else r == c
  {
    MisplacedIs(cat, t, t.cols[k]);
  }

  lemma MisplacedIs(cat: Catalog, t: Tree, c: Column)
    ensures var q := NewQualifier(cat, AliasMapOf(t), PresentIn(t), c);
      if Misplaced(cat, t, c) then q.Some? && IsNameFor(t, cat.columnTable[c.name], q.value) else q.None?
  {
    TableOfMeans(cat, t, c.qualifier);
    if c.name in cat.columnTable {
      PresentOccurs(t, cat.columnTable[c.name]);
      QualifierIsName(t, cat.columnTable[c.name]);
      var current := TableOf(cat, AliasMapOf(t), c.qualifier);
      assert (exists table :: Means(cat, t, c.qualifier, table) && table != cat.columnTable[c.name])
          <==> current.Some? && current.value != cat.columnTable[c.name];
    }
  }

  /** A requalified column really changes: its old qualifier was not a name of the owner. */
  lemma RequalifiedChanges(cat: Catalog, t: Tree, k: nat)
    requires k < |t.cols| && Misplaced(cat, t, t.cols[k]) && cat.columnTable[t.cols[k].name] != ""
    ensures FixTree(cat, t).cols[k] != t.cols[k]
  {
    var c := t.cols[k];
    RequalifiedExactlyWhen(cat, t, k);
    if FixTree(cat, t).cols[k] == c {
      MapBinds(t, c.qualifier, cat.columnTable[c.name]);
      TableOfMeans(cat, t, c.qualifier);
    }
  }

  /** Text changes exactly when it parses and its first statement has a misplaced column. */
  lemma TextRequalified(cat: Catalog, sql: SqlText)
    ensures FixText(cat, sql) ==
      if sql.Parsed? && exists k :: 0 <= k < |sql.first.cols| && Misplaced(cat, sql.first, sql.first.cols[k])
      then Parsed(FixTree(cat, sql.first), []) else sql
  {
    if sql.Parsed? {
      var t := sql.first;
      forall k | 0 <= k < |t.cols|
        ensures NewQualifier(cat, AliasMapOf(t), PresentIn(t), t.cols[k]).Some? <==> Misplaced(cat, t, t.cols[k])
      {
        MisplacedIs(cat, t, t.cols[k]);
      }
    }
  }
}
