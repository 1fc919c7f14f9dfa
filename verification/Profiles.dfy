/** What a user may see: app/rbac/profiles.py, and the hierarchy merge of app/rbac/injector.py. */
module Profiles {
  import opened Wrappers

  datatype Profile = Profile(userId: string, role: string, sfLevel: Option<int>, sfCode: string,
                             geoCol: string, geoVals: seq<string>) {
    predicate IsUnrestricted() {
      sfLevel == Some(100) || role == "VP"
    }

    /** A missing `sf_code` or `geo_col` and an empty one are treated alike; both are "" here. */
    predicate GeoAvailable() {
      geoCol != "" && geoVals != []
    }

    predicate HasOwnCode() {
      sfCode != "" && sfLevel.Some?
    }
  }

  type HierMap = map<int, set<string>>

  /** The codes a level contributes: the descendants at that level, and the user's own code at the user's level. */
  function LevelCodes(p: Profile, subtree: HierMap, level: int): set<string> {
    (if level in subtree then subtree[level] else {})
    + (if p.HasOwnCode() && level == p.sfLevel.value then {p.sfCode} else {})
  }

  function EffectiveHierMap(p: Profile, subtree: HierMap): (m: HierMap)
    ensures forall l :: l in m <==> LevelCodes(p, subtree, l) != {}
    ensures forall l :: l in m ==> m[l] == LevelCodes(p, subtree, l)
  {
    var levels := subtree.Keys + (if p.HasOwnCode() then {p.sfLevel.value} else {});
    map l | l in levels && LevelCodes(p, subtree, l) != {} :: LevelCodes(p, subtree, l)
  }

  /** The merge as the code does it: level by level, in whatever order the dictionary yields them. A level occurs once,
      so `setdefault` starts its set. */
  method MergeHierMap(p: Profile, subtree: HierMap) returns (merged: HierMap)
    ensures forall l :: l in merged <==> LevelCodes(p, subtree, l) != {}
    ensures forall l :: l in merged ==> merged[l] == LevelCodes(p, subtree, l)
  {
    merged := map[];
    var todo: set<int> := subtree.Keys;
    while exists l :: l in todo
      invariant forall l :: l in todo ==> l in subtree
      invariant forall l :: l in merged <==> l in subtree && l !in todo && subtree[l] != {}
      invariant forall l :: l in merged ==> merged[l] == subtree[l]
      decreases |todo|
    {
      var level :| level in todo;
      if subtree[level] != {} {
        merged := merged[level := subtree[level]];
      }
      todo := todo - {level};
    }
    if p.HasOwnCode() {
      var level := p.sfLevel.value;
      merged := merged[level := (if level in merged then merged[level] else {}) + {p.sfCode}];
    }
  }

  lemma EffectiveHierMapIs(p: Profile, subtree: HierMap, m: HierMap)
    requires forall l :: l in m <==> LevelCodes(p, subtree, l) != {}
    requires forall l :: l in m ==> m[l] == LevelCodes(p, subtree, l)
    ensures m == EffectiveHierMap(p, subtree)
  {
    assert forall l :: l in m <==> l in EffectiveHierMap(p, subtree);
  }
}
