/** The result cache: app/cache/results.py. SHA-256 is taken to be injective, so a key is the pair it digests. */
module ResultCaching {
  import opened Wrappers
  import opened Sql

  // ---- Cells ----

  /** A driver value. Bytes carry their UTF-8 decoding, if there is one, and their `repr`. */
  datatype CellValue =
    | NoneCell | BoolCell(b: bool) | IntCell(i: int) | FloatCell(f: real) | StrCell(s: string)
    | DecimalCell(d: real) | DateCell(iso: string) | BytesCell(decoded: Option<string>, repr: string)

  type RowDict = map<string, CellValue>

  function JsonableValue(v: CellValue): CellValue {
    match v
    case DecimalCell(d) => FloatCell(d)
    case DateCell(iso) => StrCell(iso)
    case BytesCell(Some(s), _) => StrCell(s)
    case BytesCell(None, repr) => StrCell(repr)
    case _ => v
  }

  function JsonableRow(row: RowDict): RowDict {
    map k | k in row :: JsonableValue(row[k])
  }

  function JsonableRows(rows: seq<RowDict>): (r: seq<RowDict>)
    ensures |r| == |rows| && forall i :: 0 <= i < |rows| ==> r[i] == JsonableRow(rows[i])
  {
    if rows == [] then [] else [JsonableRow(rows[0])] + JsonableRows(rows[1..])
  }

  /** Rows that went through the cache convert to themselves. */
  lemma JsonableIdempotent(rows: seq<RowDict>)
    ensures JsonableRows(JsonableRows(rows)) == JsonableRows(rows)
  {
    forall row: RowDict ensures JsonableRow(JsonableRow(row)) == JsonableRow(row) {
    }
  }

  // ---- The cache ----

  datatype CacheKey = CacheKey(sql: Tree, fingerprint: string)

  datatype Entry = Entry(columns: seq<string>, rows: seq<RowDict>, rowCount: int, expiresAt: int)

  datatype Event = PutEvent(key: CacheKey, entry: Entry) | GetEvent(key: CacheKey) | SweepEvent

  /** The last entry put under a key. */
  function LastPut(h: seq<Event>, key: CacheKey): Option<Entry> {
    if h == [] then None else
      var last := h[|h| - 1];
      if last.PutEvent? && last.key == key then Some(last.entry) else LastPut(h[..|h| - 1], key)
  }

  /** The timeline a reader sees: the last entry put, until it expires. */
  function Live(h: seq<Event>, key: CacheKey, now: int): Option<Entry> {
    var e := LastPut(h, key);
    if e.Some? && now < e.value.expiresAt then e else None
  }

  lemma LastPutStep(h: seq<Event>, e: Event, key: CacheKey)
    ensures LastPut(h + [e], key) == if e.PutEvent? && e.key == key then Some(e.entry) else LastPut(h, key)
  {
    assert (h + [e])[..|h + [e]| - 1] == h;
  }

  type ResultTable = map<CacheKey, Entry>

  predicate IsLive(t: ResultTable, key: CacheKey, now: int) {
    key in t && now < t[key].expiresAt
  }

  /** Reading deletes the row it finds expired. */
  function AfterFetch(t: ResultTable, key: CacheKey, now: int): ResultTable {
    if key in t && !IsLive(t, key, now) then t - {key} else t
  }

  function AfterPut(t: ResultTable, key: CacheKey, columns: seq<string>, rows: seq<RowDict>, rowCount: int, expiresAt: int): ResultTable {
    t[key := Entry(columns, JsonableRows(rows), rowCount, expiresAt)]
  }

  function AfterSweep(t: ResultTable, now: int): ResultTable {
    map k | k in t && now < t[k].expiresAt :: t[k]
  }

  /** A stored row is the last one put; a missing one was never put or has expired. */
  ghost predicate Consistent(t: ResultTable, h: seq<Event>, clock: int) {
    forall key {:trigger LastPut(h, key)} ::
      if key in t then LastPut(h, key) == Some(t[key])
      else LastPut(h, key).None? || LastPut(h, key).value.expiresAt <= clock
  }

  class ResultCache {
    var entries: ResultTable
    ghost var history: seq<Event>
    ghost var clock: int

    ghost predicate Valid()
      reads this
    {
      Consistent(entries, history, clock)
    }

    constructor ()
      ensures Valid() && entries == map[] && history == [] && clock == 0
    {
      entries, history, clock := map[], [], 0;
    }

    /** Returns the live entry; deletes an expired one on the way. */
    method Fetch(key: CacheKey, now: int) returns (r: Option<Entry>)
      requires Valid() && clock <= now
      modifies this
      ensures Valid() && clock == now && history == old(history) + [GetEvent(key)]
      ensures r == Live(old(history), key, now)
      ensures r == if IsLive(old(entries), key, now) then Some(old(entries)[key]) else None
      ensures entries == AfterFetch(old(entries), key, now)
    {
      clock := now;
      history := history + [GetEvent(key)];
      forall k ensures LastPut(history, k) == LastPut(old(history), k) {
        LastPutStep(old(history), GetEvent(key), k);
      }
      if key !in entries {
        return None;
      }
      if entries[key].expiresAt <= now {
        entries := entries - {key};
        return None;
      }
      return Some(entries[key]);
    }

    /** Upserts the converted rows under the key. */
    method Put(key: CacheKey, columns: seq<string>, rows: seq<RowDict>, rowCount: int, now: int, ttl: int)
      requires Valid() && clock <= now
      modifies this
      ensures Valid() && clock == now
      ensures entries == AfterPut(old(entries), key, columns, rows, rowCount, now + ttl)
      ensures history == old(history) + [PutEvent(key, entries[key])]
    {
      var expiresAt := now + ttl;
      var safeRows := JsonableRows(rows);
      if key in entries {
        entries := entries[key := entries[key].(columns := columns, rows := safeRows, rowCount := rowCount, expiresAt := expiresAt)];
      } else {
        entries := entries[key := Entry(columns, safeRows, rowCount, expiresAt)];
      }
      clock := now;
      history := history + [PutEvent(key, entries[key])];
      forall k ensures LastPut(history, k) == if k == key then Some(entries[key]) else LastPut(old(history), k) {
        LastPutStep(old(history), PutEvent(key, entries[key]), k);
      }
    }

    /** Deletes the expired rows and says how many there were. */
    method Sweep(now: int) returns (n: nat)
      requires Valid() && clock <= now
      modifies this
      ensures Valid() && clock == now && history == old(history) + [SweepEvent]
      ensures n == |set k | k in old(entries) && old(entries)[k].expiresAt <= now|
      ensures entries == AfterSweep(old(entries), now)
    {
      var dead := set k | k in entries && entries[k].expiresAt <= now;
      n := |dead|;
      entries := entries - dead;
      clock := now;
      history := history + [SweepEvent];
      forall k ensures LastPut(history, k) == LastPut(old(history), k) {
        LastPutStep(old(history), SweepEvent, k);
      }
      assert entries == AfterSweep(old(entries), now);
    }

    /** What a session rollback does to the table: it is again what it was. */
    method Rollback(saved: ResultTable, ghost savedHistory: seq<Event>)
      requires Consistent(saved, savedHistory, clock)
      modifies this
      ensures Valid() && entries == saved && history == savedHistory && clock == old(clock)
    {
      entries := saved;
      history := savedHistory;
    }
  }

  /** Sweeping and expired reads change no later answer: erasing them from a history leaves every live entry as it is. */
  function OnlyPuts(h: seq<Event>): seq<Event> {
    if h == [] then [] else
      OnlyPuts(h[..|h| - 1]) + if h[|h| - 1].PutEvent? then [h[|h| - 1]] else []
  }

  lemma {:induction false} ReadsAndSweepsUnobservable(h: seq<Event>, key: CacheKey, now: int)
    ensures Live(h, key, now) == Live(OnlyPuts(h), key, now)
  {
    SamePuts(h, key);
  }

  lemma {:induction false} SamePuts(h: seq<Event>, key: CacheKey)
    ensures LastPut(OnlyPuts(h), key) == LastPut(h, key)
  {
    if h != [] {
      var last, front := h[|h| - 1], h[..|h| - 1];
      SamePuts(front, key);
      if last.PutEvent? {
        LastPutStep(OnlyPuts(front), last, key);
      } else {
        assert OnlyPuts(front) + [] == OnlyPuts(front);
      }
    }
  }
}
