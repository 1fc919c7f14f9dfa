/** Sales-force subtrees: app/rbac/hierarchy.py. */
module Hierarchy {
  import opened Wrappers
  import opened Characters
  import opened Profiles

  /** A row of the hierarchy table, its codes stripped ("" for a missing one); `level` is None when `sf_level_code` is not
      an integer. */
  datatype HierRow = HierRow(code: string, level: Option<int>, parent: string)

  // ---- What a subtree is ----

  ghost predicate Edge(rows: seq<HierRow>, a: string, b: string) {
    a != "" && b != "" && exists r :: r in rows && r.parent == a && r.code == b
  }

  ghost predicate IsPath(rows: seq<HierRow>, p: seq<string>) {
    p != [] && forall k :: 0 <= k < |p| - 1 ==> Edge(rows, p[k], p[k + 1])
  }

  /** `c` is the root or below it. */
  ghost predicate Reachable(rows: seq<HierRow>, root: string, c: string) {
    exists p :: IsPath(rows, p) && p[0] == root && p[|p| - 1] == c
  }

  predicate InLevel(m: HierMap, level: int, c: string) {
    level in m && c in m[level]
  }

  /** A row that leads from a reachable code to `c`. */
  ghost predicate LeadsTo(rows: seq<HierRow>, root: string, r: HierRow, c: string) {
    r in rows && r.code == c && r.parent != "" && Reachable(rows, root, r.parent)
  }

  /** `c` is listed at the level of one row that leads to it, and nowhere if that row has no level. */
  ghost predicate Discovered(rows: seq<HierRow>, root: string, m: HierMap, c: string) {
    exists r :: LeadsTo(rows, root, r, c) && forall l :: InLevel(m, l, c) <==> r.level == Some(l)
  }

  /** Only codes strictly below the root are listed, and each of them is listed where a row that leads to it says. */
  ghost predicate IsSubtree(rows: seq<HierRow>, root: string, m: HierMap) {
    && (forall l :: l in m ==> m[l] != {})
    && (forall l, c :: InLevel(m, l, c) ==> c != root && c != "" && Reachable(rows, root, c))
    && (forall c {:trigger Discovered(rows, root, m, c)} :: Reachable(rows, root, c) && c != root ==> Discovered(rows, root, m, c))
  }

  lemma ReachRoot(rows: seq<HierRow>, root: string)
    ensures Reachable(rows, root, root)
  {
    assert IsPath(rows, [root]);
  }

  lemma ReachStep(rows: seq<HierRow>, root: string, a: string, b: string)
    requires Reachable(rows, root, a) && Edge(rows, a, b)
    ensures Reachable(rows, root, b)
  {
    var p :| IsPath(rows, p) && p[0] == root && p[|p| - 1] == a;
    assert IsPath(rows, p + [b]);
    assert (p + [b])[|p + [b]| - 1] == b;
  }

  lemma {:induction false} ReachTransitive(rows: seq<HierRow>, a: string, b: string, c: string)
    requires Reachable(rows, a, b) && Reachable(rows, b, c)
    ensures Reachable(rows, a, c)
  {
    var p :| IsPath(rows, p) && p[0] == a && p[|p| - 1] == b;
    var q :| IsPath(rows, q) && q[0] == b && q[|q| - 1] == c;
    var pq := p + q[1..];
    forall k | 0 <= k < |pq| - 1 ensures Edge(rows, pq[k], pq[k + 1]) {
      if k >= |p| - 1 {
        assert pq[k] == q[k - (|p| - 1)] && pq[k + 1] == q[k + 1 - (|p| - 1)];
        assert Edge(rows, q[k - (|p| - 1)], q[k - (|p| - 1) + 1]);
      }
    }
    assert IsPath(rows, pq);
  }

  /** A set that holds the root and is closed under edges holds every reachable code. */
  lemma {:induction false} ClosedHoldsPath(rows: seq<HierRow>, p: seq<string>, closed: set<string>)
    requires IsPath(rows, p) && p[0] in closed
    requires forall a, b :: a in closed && Edge(rows, a, b) ==> b in closed
    ensures p[|p| - 1] in closed
    decreases |p|
  {
    if |p| > 1 {
      assert Edge(rows, p[0], p[0 + 1]);
      assert IsPath(rows, p[1..]) by {
        forall k | 0 <= k < |p[1..]| - 1 ensures Edge(rows, p[1..][k], p[1..][k + 1]) {
          assert Edge(rows, p[k + 1], p[k + 1 + 1]);
        }
      }
      ClosedHoldsPath(rows, p[1..], closed);
    }
  }

  // ---- The breadth-first search ----

  type Child = (string, Option<int>)

  /** The children listed under `parent`, in row order. */
  function ChildrenOf(rows: seq<HierRow>, parent: string): seq<Child> {
    if rows == [] then [] else
      var last := rows[|rows| - 1];
      ChildrenOf(rows[..|rows| - 1], parent) + (if last.parent == parent then [(last.code, last.level)] else [])
  }

  lemma {:induction false} ChildrenAreRows(rows: seq<HierRow>, parent: string)
    ensures forall kid :: kid in ChildrenOf(rows, parent) <==>
              exists r :: r in rows && r.parent == parent && kid == (r.code, r.level)
  {
    if rows != [] {
      var front, last := rows[..|rows| - 1], rows[|rows| - 1];
      ChildrenAreRows(front, parent);
      assert rows == front + [last];
      forall kid | kid in ChildrenOf(rows, parent)
        ensures exists r :: r in rows && r.parent == parent && kid == (r.code, r.level)
      {
        if kid in ChildrenOf(front, parent) {
          var r :| r in front && r.parent == parent && kid == (r.code, r.level);
          assert r in rows;
        } else {
          assert last in rows;
        }
      }
      forall r | r in rows && r.parent == parent ensures (r.code, r.level) in ChildrenOf(rows, parent) {
        if r in front {
          assert (r.code, r.level) in ChildrenOf(front, parent);
        }
      }
    }
  }

  /** `children` lists every parent's children; the empty parent has none. */
  ghost predicate IsChildMap(children: map<string, seq<Child>>, rows: seq<HierRow>) {
    && "" !in children
    && forall p :: p != "" ==> ChildrenOf(rows, p) == if p in children then children[p] else []
  }

  lemma ChildMapStep(children: map<string, seq<Child>>, rows: seq<HierRow>, last: HierRow)
    requires IsChildMap(children, rows)
    ensures last.parent == "" ==> IsChildMap(children, rows + [last])
    ensures last.parent != "" ==>
      IsChildMap(children[last.parent := (if last.parent in children then children[last.parent] else []) + [(last.code, last.level)]],
                 rows + [last])
  {
    assert (rows + [last])[..|rows + [last]| - 1] == rows;
  }

  method IndexChildren(rows: seq<HierRow>) returns (children: map<string, seq<Child>>)
    ensures IsChildMap(children, rows)
  {
    children := map[];
    var i := 0;
    while i < |rows|
      invariant i <= |rows| && IsChildMap(children, rows[..i])
    {
      var parent := rows[i].parent;
      ChildMapStep(children, rows[..i], rows[i]);
      assert rows[..i] + [rows[i]] == rows[..i + 1];
      if parent != "" {
        children := children[parent := (if parent in children then children[parent] else []) + [(rows[i].code, rows[i].level)]];
      }
      i := i + 1;
    }
    assert rows[..i] == rows;
  }

  /** What is known of the codes seen so far. */
  ghost predicate Progress(rows: seq<HierRow>, root: string, seen: set<string>, m: HierMap) {
    && root in seen
    && (forall c :: c in seen ==> Reachable(rows, root, c))
    && (forall l :: l in m ==> m[l] != {})
    && (forall l, c :: InLevel(m, l, c) ==> c in seen && c != root && c != "")
    && (forall c {:trigger Discovered(rows, root, m, c)} :: c in seen && c != root ==> Discovered(rows, root, m, c))
  }

  /** `result[level].add(code)` on a defaultdict, skipped when there is no level. */
  function Listed(m: HierMap, code: string, level: Option<int>): HierMap {
    match level
    case None => m
    case Some(l) => m[l := (if l in m then m[l] else {}) + {code}]
  }

  lemma ProgressStart(rows: seq<HierRow>, root: string)
    ensures Progress(rows, root, {root}, map[])
  {
    ReachRoot(rows, root);
  }

  lemma ProgressStep(rows: seq<HierRow>, root: string, seen: set<string>, m: HierMap, r: HierRow)
    requires Progress(rows, root, seen, m)
    requires r in rows && r.parent in seen && r.parent != "" && r.code !in seen && r.code != ""
    ensures Progress(rows, root, seen + {r.code}, Listed(m, r.code, r.level))
  {
    var code, m' := r.code, Listed(m, r.code, r.level);
    assert Edge(rows, r.parent, code);
    ReachStep(rows, root, r.parent, code);
    forall l, c ensures InLevel(m', l, c) <==> InLevel(m, l, c) || (c == code && r.level == Some(l)) {
    }
    forall c | c in seen + {code} && c != root ensures Discovered(rows, root, m', c) {
      if c == code {
        assert LeadsTo(rows, root, r, code) && forall l :: InLevel(m', l, c) <==> r.level == Some(l);
      } else {
        assert Discovered(rows, root, m, c);
        var r' :| LeadsTo(rows, root, r', c) && forall l :: InLevel(m, l, c) <==> r'.level == Some(l);
        assert forall l :: InLevel(m', l, c) <==> r'.level == Some(l);
      }
    }
  }

  lemma KidIsRow(rows: seq<HierRow>, current: string, kid: Child) returns (r: HierRow)
    requires kid in ChildrenOf(rows, current)
    ensures r in rows && r.parent == current && kid == (r.code, r.level)
  {
    ChildrenAreRows(rows, current);
    r :| r in rows && r.parent == current && kid == (r.code, r.level);
  }

  lemma KidsCoverEdges(rows: seq<HierRow>, current: string, kids: seq<Child>, seen: set<string>)
    requires kids == if current == "" then [] else ChildrenOf(rows, current)
    requires forall k :: 0 <= k < |kids| ==> kids[k].0 == "" || kids[k].0 in seen
    ensures forall b :: Edge(rows, current, b) ==> b in seen
  {
    ChildrenAreRows(rows, current);
    forall b | Edge(rows, current, b) ensures b in seen {
      var r :| r in rows && r.parent == current && r.code == b;
      assert (r.code, r.level) in kids;
    }
  }

  /** The inner loop: lists and enqueues the children of a seen code that were not seen before. */
  method VisitChildren(rows: seq<HierRow>, root: string, current: string, kids: seq<Child>,
                       seen0: set<string>, queue0: seq<string>, result0: HierMap)
    returns (seen: set<string>, queue: seq<string>, result: HierMap)
    requires Progress(rows, root, seen0, result0) && current in seen0
    requires kids == if current == "" then [] else ChildrenOf(rows, current)
    ensures Progress(rows, root, seen, result) && seen0 <= seen <= seen0 + (set r | r in rows :: r.code)
    ensures forall c :: c in queue <==> c in queue0 || c in seen - seen0
    ensures forall b :: Edge(rows, current, b) ==> b in seen
    ensures seen == seen0 ==> queue == queue0
  {
    seen, queue, result := seen0, queue0, result0;
    var j := 0;
    while j < |kids|
      invariant j <= |kids| && seen0 <= seen <= seen0 + (set r | r in rows :: r.code)
      invariant Progress(rows, root, seen, result)
      invariant forall c :: c in queue <==> c in queue0 || c in seen - seen0
      invariant forall k :: 0 <= k < j ==> kids[k].0 == "" || kids[k].0 in seen
      invariant seen == seen0 ==> queue == queue0
    {
      var (code, level) := kids[j];
      assert kids[j] in kids;
      if code != "" && code !in seen {
        ghost var r := KidIsRow(rows, current, kids[j]);
        ProgressStep(rows, root, seen, result, r);
        seen := seen + {code};
        result := Listed(result, code, level);
        queue := queue + [code];
      }
      j := j + 1;
    }
    KidsCoverEdges(rows, current, kids, seen);
  }

  lemma AllSeen(rows: seq<HierRow>, root: string, seen: set<string>, m: HierMap)
    requires Progress(rows, root, seen, m) && forall a, b :: a in seen && Edge(rows, a, b) ==> b in seen
    ensures IsSubtree(rows, root, m)
  {
    forall c | Reachable(rows, root, c) ensures c in seen {
      var p :| IsPath(rows, p) && p[0] == root && p[|p| - 1] == c;
      ClosedHoldsPath(rows, p, seen);
    }
  }

  /** `resolve_subtree`: terminates and is correct for any rows, cyclic and duplicated ones included. */
  method ResolveSubtree(rows: seq<HierRow>, root: string) returns (result: HierMap)
    ensures IsSubtree(rows, root, result)
  {
    var children := IndexChildren(rows);
    result := map[];
    var seen := {root};
    var queue := [root];
    ghost var done := {};
    ghost var all := {root} + set r | r in rows :: r.code;
    ProgressStart(rows, root);
    while queue != []
      invariant Progress(rows, root, seen, result) && seen <= all
      invariant forall c :: c in seen <==> c in done || c in queue
      invariant forall a, b :: a in done && Edge(rows, a, b) ==> b in seen
      decreases all - seen, |queue|
    {
      var current := queue[0];
      ghost var waiting := queue;
      queue := queue[1..];
      assert waiting == [current] + queue;
      var kids := if current in children then children[current] else [];
      seen, queue, result := VisitChildren(rows, root, current, kids, seen, queue, result);
      done := done + {current};
    }
    AllSeen(rows, root, seen, result);
  }

  // ---- Consequences ----

  /** Rows of one code agree on its level. */
  ghost predicate LevelIsFunctionOfCode(rows: seq<HierRow>) {
    forall r, r' :: r in rows && r' in rows && r.code == r'.code ==> r.level == r'.level
  }

  ghost predicate HasLevel(rows: seq<HierRow>, c: string, level: int) {
    exists r :: r in rows && r.code == c && r.level == Some(level)
  }

  /** With one level per code, a level lists exactly the codes of that level strictly below the root. */
  lemma SubtreeIsExact(rows: seq<HierRow>, root: string, m: HierMap, level: int, c: string)
    requires IsSubtree(rows, root, m) && LevelIsFunctionOfCode(rows)
    ensures InLevel(m, level, c) <==> c != root && Reachable(rows, root, c) && HasLevel(rows, c, level)
  {
    if c != root && Reachable(rows, root, c) {
      assert Discovered(rows, root, m, c);
      var r :| LeadsTo(rows, root, r, c) && forall l :: InLevel(m, l, c) <==> r.level == Some(l);
    }
  }

  /** Whatever the rows say, no code is listed at two levels. */
  lemma LevelsAreDisjoint(rows: seq<HierRow>, root: string, m: HierMap, l: int, l': int, c: string)
    requires IsSubtree(rows, root, m) && InLevel(m, l, c) && InLevel(m, l', c)
    ensures l == l'
  {
    assert Discovered(rows, root, m, c);
    var r :| LeadsTo(rows, root, r, c) && forall k :: InLevel(m, k, c) <==> r.level == Some(k);
  }

  // ---- The subtree cache ----

  /** Ten minutes; clock values are in milliseconds. */
  const CACHE_TTL: int := 600_000

  datatype Cached = Cached(expiry: int, subtree: HierMap)

  /** The subtree of the table as it was less than ten minutes ago. */
  ghost predicate RecentSubtree(rowsAt: int -> seq<HierRow>, now: int, root: string, m: HierMap) {
    exists t :: now - 600_000 < t <= now && IsSubtree(rowsAt(t), root, m)
  }

  /** A user without a code has an empty subtree, whatever the table. */
  lemma NoCodeNoSubtree(rowsAt: int -> seq<HierRow>, now: int)
    ensures RecentSubtree(rowsAt, now, "", map[])
  {
    forall c | Reachable(rowsAt(now), "", c) ensures c == "" {
      var p :| IsPath(rowsAt(now), p) && p[0] == "" && p[|p| - 1] == c;
      assert |p| > 1 ==> Edge(rowsAt(now), p[0], p[0 + 1]);
    }
    assert IsSubtree(rowsAt(now), "", map[]);
  }

  /** The subtree of the table as it was when the entry was made. */
  ghost predicate IsEntry(rowsAt: int -> seq<HierRow>, now: int, root: string, c: Cached) {
    c.expiry - CACHE_TTL <= now && IsSubtree(rowsAt(c.expiry - CACHE_TTL), root, c.subtree)
  }

  lemma NewEntry(rowsAt: int -> seq<HierRow>, now: int, cache: map<string, Cached>, root: string, c: Cached,
                 cache': map<string, Cached>)
    requires cache' == cache[root := c]
    requires forall x :: x in cache ==> IsEntry(rowsAt, now, x, cache[x])
    requires IsEntry(rowsAt, now, root, c)
    ensures forall x :: x in cache' ==> IsEntry(rowsAt, now, x, cache'[x])
  {
    forall x | x in cache' ensures IsEntry(rowsAt, now, x, cache'[x]) {
      if x != root {
        assert IsEntry(rowsAt, now, x, cache[x]);
      }
    }
  }

  /** `get_subtree_for` and its cache. `rowsAt` is the history of the hierarchy table. */
  class SubtreeCache {
    var cache: map<string, Cached>

    ghost predicate Valid(rowsAt: int -> seq<HierRow>, now: int)
      reads this
    {
      forall root :: root in cache ==> IsEntry(rowsAt, now, root, cache[root])
    }

    constructor ()
      ensures cache == map[]
    {
      cache := map[];
    }

    /** `fetched` is what reading the table would give now, None if it raises. A served subtree is never ten minutes old. */
    method GetSubtreeFor(p: Profile, now: int, fetched: Option<seq<HierRow>>, ghost rowsAt: int -> seq<HierRow>)
      returns (r: Option<HierMap>)
      requires Valid(rowsAt, now) && (fetched.Some? ==> fetched.value == rowsAt(now))
      modifies this
      ensures Valid(rowsAt, now)
      ensures p.IsUnrestricted() || p.sfCode == "" ==> r == Some(map[]) && cache == old(cache)
      ensures !p.IsUnrestricted() && r.Some? ==> RecentSubtree(rowsAt, now, Strip(p.sfCode), r.value)
      ensures r.None? ==> fetched.None? && cache == old(cache)
      ensures !p.IsUnrestricted() && p.sfCode != "" ==>
        var root := Strip(p.sfCode);
        if root in old(cache) && old(cache)[root].expiry > now then r == Some(old(cache)[root].subtree) && cache == old(cache)
        else fetched.Some? ==> r.Some? && IsSubtree(fetched.value, root, r.value)
                               && cache == old(cache)[root := Cached(now + 600_000, r.value)]
    {
      if p.IsUnrestricted() || p.sfCode == "" {
        NoCodeNoSubtree(rowsAt, now);
        return Some(map[]);
      }
      var root := Strip(p.sfCode);
      if root in cache && cache[root].expiry > now {
        assert IsEntry(rowsAt, now, root, cache[root]);
        return Some(cache[root].subtree);
      }
      if fetched.None? {
        return None;
      }
      var subtree := ResolveSubtree(fetched.value, root);
      assert IsSubtree(rowsAt(now), root, subtree);
      cache := cache[root := Cached(now + CACHE_TTL, subtree)];
      NewEntry(rowsAt, now, old(cache), root, Cached(now + CACHE_TTL, subtree), cache);
      return Some(subtree);
    }
  }
}
