/** The query cache: app/cache/semantic.py. The table is keyed by normalized question. The nearest-neighbour search is the
    database's: the row it returns and its similarity are inputs. */
module QueryCaching {
  import opened Wrappers
  import opened Sql
  import opened Templater

  type Embedding = seq<real>

  datatype CachedQuery = CachedQuery(embedding: Embedding, template: SqlText, spec: Spec, temporal: string, createdBy: string,
                                     isValid: bool, hits: nat)

  type QueryTable = map<string, CachedQuery>

  function Bumped(t: QueryTable, key: string): QueryTable
    requires key in t
  {
    t[key := t[key].(hits := t[key].hits + 1)]
  }

  predicate ExactHit(t: QueryTable, key: string) {
    key in t && t[key].isValid
  }

  /** The nearest valid row counts only if it is similar enough and of the same temporal intent. */
  predicate SemanticHit(t: QueryTable, nearest: Option<(string, real)>, temporal: string, threshold: real) {
    nearest.Some? && ExactHit(t, nearest.value.0) && nearest.value.1 >= threshold && t[nearest.value.0].temporal == temporal
  }

  function Upserted(t: QueryTable, key: string, embedding: Embedding, template: SqlText, spec: Spec, temporal: string,
                    createdBy: string): QueryTable {
    t[key := if key in t then t[key].(embedding := embedding, template := template, spec := spec, temporal := temporal, isValid := true)
             else CachedQuery(embedding, template, spec, temporal, createdBy, true, 0)]
  }

  function WithAlias(t: QueryTable, key: string, source: CachedQuery): QueryTable {
    if key in t then t else t[key := source.(isValid := true, hits := 0)]
  }

  function Invalidated(t: QueryTable): QueryTable {
    map k | k in t :: t[k].(isValid := false)
  }

  class QueryCache {
    var entries: QueryTable

    constructor ()
      ensures entries == map[]
    {
      entries := map[];
    }

    method LookupExact(key: string) returns (hit: Option<CachedQuery>)
      modifies this
      ensures hit.Some? <==> key in old(entries) && old(entries)[key].isValid
      ensures entries == if hit.Some? then Bumped(old(entries), key) else old(entries)
      ensures hit.Some? ==> hit.value == entries[key]
    {
      if key !in entries || !entries[key].isValid {
        return None;
      }
      entries := entries[key := entries[key].(hits := entries[key].hits + 1)];
      return Some(entries[key]);
    }

    method LookupSemantic(nearest: Option<(string, real)>, temporal: string, threshold: real) returns (hit: Option<CachedQuery>)
      modifies this
      ensures hit.Some? <==> nearest.Some? && var (key, similarity) := nearest.value;
        key in old(entries) && old(entries)[key].isValid && similarity >= threshold && old(entries)[key].temporal == temporal
      ensures entries == if hit.Some? then Bumped(old(entries), nearest.value.0) else old(entries)
      ensures hit.Some? ==> hit.value == entries[nearest.value.0]
    {
      if nearest.None? || nearest.value.0 !in entries || !entries[nearest.value.0].isValid {
        return None;
      }
      var (key, similarity) := nearest.value;
      if similarity < threshold {
        return None;
      }
      if entries[key].temporal != temporal {
        return None;
      }
      entries := entries[key := entries[key].(hits := entries[key].hits + 1)];
      return Some(entries[key]);
    }

    method Store(key: string, embedding: Embedding, template: SqlText, spec: Spec, temporal: string, createdBy: string)
      modifies this
      ensures entries == Upserted(old(entries), key, embedding, template, spec, temporal, createdBy)
      ensures var e := entries[key];
        e.isValid && e.embedding == embedding && Answers(e) == (template, spec, temporal) && entries - {key} == old(entries) - {key}
    {
      if key in entries {
        var kept := entries[key];
        entries := entries[key := kept.(embedding := embedding, template := template, spec := spec, temporal := temporal, isValid := true)];
      } else {
        entries := entries[key := CachedQuery(embedding, template, spec, temporal, createdBy, true, 0)];
      }
    }

    method AddAlias(key: string, source: CachedQuery)
      modifies this
      ensures entries == WithAlias(old(entries), key, source)
      ensures key in entries && entries - {key} == old(entries) - {key}
      ensures if key in old(entries) then entries[key] == old(entries)[key]
              else entries[key].isValid && entries[key].hits == 0 && Answers(entries[key]) == Answers(source)
    {
      if key !in entries {
        entries := entries[key := source.(isValid := true, hits := 0)];
      }
    }

    /** Returns the number of rows it made invalid. */
    method InvalidateAll() returns (n: nat)
      modifies this
      ensures entries == Invalidated(old(entries))
      ensures n == |set k | k in old(entries) && old(entries)[k].isValid|
    {
      n := |set k | k in entries && entries[k].isValid|;
      entries := map k | k in entries :: entries[k].(isValid := false);
    }

    method Rollback(saved: QueryTable)
      modifies this
      ensures entries == saved
    {
      entries := saved;
    }
  }

  // ---- What a hit can be ----

  /** What an entry answers with. */
  function Answers(e: CachedQuery): (SqlText, Spec, string) {
    (e.template, e.spec, e.temporal)
  }

  /** A phrasing that hit by similarity and has no row of its own yet hits exactly the next time, with the same answer. */
  lemma AliasHitsExactly(t: QueryTable, nearest: Option<(string, real)>, temporal: string, threshold: real, key: string)
    requires SemanticHit(t, nearest, temporal, threshold) && key !in t
    ensures var bumped := Bumped(t, nearest.value.0);
      var after := WithAlias(bumped, key, bumped[nearest.value.0]);
      ExactHit(after, key) && Answers(after[key]) == Answers(t[nearest.value.0]) && after[key].temporal == temporal
  {
  }

  /** After an invalidation nothing hits until it is stored again; storing makes it hit with what was stored. */
  lemma InvalidUntilStored(t: QueryTable, key: string, nearest: Option<(string, real)>, temporal: string, threshold: real,
                           embedding: Embedding, template: SqlText, spec: Spec, user: string)
    ensures !ExactHit(Invalidated(t), key) && !SemanticHit(Invalidated(t), nearest, temporal, threshold)
    ensures var after := Upserted(Invalidated(t), key, embedding, template, spec, temporal, user);
      ExactHit(after, key) && Answers(after[key]) == (template, spec, temporal)
      && forall other :: ExactHit(after, other) ==> other == key
  {
  }
}
