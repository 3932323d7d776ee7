/**
 The read-through Redis cache of the settings table.

 Readers and writers of any number of processes interleave. A reader that misses loads
 the table and fills the cache later; a writer updates the table and deletes the cache
 key later; every Redis command may fail, and Redis may drop the key early. A run is any
 sequence of these steps, and the theorems speak about the steps of a run.
 */
module SettingsCache {
  import opened Options

  type Table = map<string, string>
  type ReaderId = nat

  /** `SETTINGS_CACHE_TTL_SECS`. */
  const TTL: nat := 60

  datatype Entry = Entry(table: Table, expiresAt: int)

  /** A reader between its cache miss and its answer; `at` is when it queried the table. */
  datatype Reader = Missed | Loaded(table: Table, at: int)

  datatype State = State(
    now: int,
    table: Table,
    cache: Option<Entry>,
    readers: map<ReaderId, Reader>)

  datatype Action =
    | Tick(seconds: nat)
    | Write(key: string, value: string)      // the upsert of `upsert_setting`
    | Delete(ok: bool)                       // `invalidate_settings_cache`
    | Evict                                  // Redis drops the key
    | Hit(r: ReaderId)                       // `settings_cache_get` finds a live entry
    | Miss(r: ReaderId)                      // nothing cached, or the Redis read failed
    | Load(r: ReaderId, dbOk: bool)          // `load_settings_map_from_db`
    | Fill(r: ReaderId, redisOk: bool)       // `settings_cache_set`, then the map is returned
    | Abandon(r: ReaderId)                   // the request is dropped

  /** A failed query yields the empty map, exactly as an empty table would. */
  function Query(s: State, dbOk: bool): Table {
    if dbOk then s.table else map[]
  }

  /** The steps the program and Redis can take in a state. */
  predicate Ready(s: State, a: Action) {
    match a
    case Hit(r) => r !in s.readers && s.cache.Some? && s.now <= s.cache.value.expiresAt
    case Miss(r) => r !in s.readers
    case Load(r, _) => r in s.readers && s.readers[r] == Missed
    case Fill(r, _) => r in s.readers && s.readers[r].Loaded?
    case Abandon(r) => r in s.readers
    case _ => true
  }

  /** Time does not pass a reader by: it fills, or gives up, at most `gap` after its query. */
  ghost predicate Timely(s: State, a: Action, gap: nat) {
    a.Tick? ==> forall r :: r in s.readers && s.readers[r].Loaded? ==> s.now + a.seconds <= s.readers[r].at + gap
  }

  function Next(s: State, a: Action): State
    requires Ready(s, a)
  {
    match a
    case Tick(d) => s.(now := s.now + d)
    case Write(k, v) => s.(table := s.table[k := v])
    case Delete(ok) => if ok then s.(cache := None) else s
    case Evict => s.(cache := None)
    case Hit(_) => s
    case Miss(r) => s.(readers := s.readers[r := Missed])
    case Load(r, dbOk) => s.(readers := s.readers[r := Loaded(Query(s, dbOk), s.now)])
    case Fill(r, redisOk) =>
      s.(readers := s.readers - {r},
         cache := if redisOk then Some(Entry(s.readers[r].table, s.now + TTL)) else s.cache)
    case Abandon(r) => s.(readers := s.readers - {r})
  }

  /** The map that a step hands to its caller. */
  function Returned(s: State, a: Action): Option<Table>
    requires Ready(s, a)
  {
    match a
    case Hit(_) => Some(s.cache.value.table)
    case Fill(r, _) => Some(s.readers[r].table)
    case _ => None
  }

  // ---------------------------------------------------------------- the program

  /** The shared stores, as the functions of one process see them. */
  class Stores {
    var now: int
    var table: Table
    var cache: Option<Entry>
    var readers: map<ReaderId, Reader>

    function View(): State
      reads this
    {
      State(now, table, cache, readers)
    }

    /** `settings_cache_get`; a Redis failure reads as a miss. */
    method CacheGet(r: ReaderId, redisOk: bool) returns (hit: Option<Table>)
      requires r !in readers
      modifies this`readers
      ensures hit.Some? ==> Ready(old(View()), Hit(r)) && Returned(old(View()), Hit(r)) == hit && View() == old(View())
      ensures hit.None? ==> View() == Next(old(View()), Miss(r))
      ensures hit.Some? <==> redisOk && Ready(old(View()), Hit(r))
    {
      if redisOk && cache.Some? && now <= cache.value.expiresAt {
        return Some(cache.value.table);
      }
      readers := readers[r := Missed];
      return None;
    }

    /** `settings_cache_set`, best effort, and the return of the loaded map. */
    method CacheSet(r: ReaderId, redisOk: bool) returns (map': Table)
      requires Ready(View(), Fill(r, redisOk))
      modifies this`readers, this`cache
      ensures View() == Next(old(View()), Fill(r, redisOk))
      ensures Returned(old(View()), Fill(r, redisOk)) == Some(map')
    {
      map' := readers[r].table;
      if redisOk {
        cache := Some(Entry(map', now + TTL));
      }
      readers := readers - {r};
    }

    /** `load_settings_map` of a reader that nothing interrupts: a hit, or miss, query and fill; without a client, a query. */
    method LoadSettingsMap(r: ReaderId, client: bool, getOk: bool, dbOk: bool, setOk: bool) returns (map': Table)
      requires r !in readers
      modifies this`readers, this`cache
      ensures now == old(now) && table == old(table) && readers == old(readers)
      ensures var hit := client && getOk && old(Ready(View(), Hit(r)));
              && map' == (if hit then old(cache).value.table else Query(old(View()), dbOk))
              && cache == if client && !hit && setOk then Some(Entry(map', now + TTL)) else old(cache)
    {
      if !client {
        return Query(View(), dbOk);
      }
      var cached := CacheGet(r, getOk);
      if cached.Some? {
        return cached.value;
      }
      readers := readers[r := Loaded(Query(View(), dbOk), now)];
      map' := CacheSet(r, setOk);
    }

    /** `upsert_setting`: write the row, then try to delete the cached map; a failed write leaves both alone. */
    method UpsertSetting(key: string, value: string, dbOk: bool, redisOk: bool) returns (ok: bool)
      modifies this`table, this`cache
      ensures ok == dbOk
      ensures View() == if dbOk then Next(Next(old(View()), Write(key, value)), Delete(redisOk)) else old(View())
    {
      if !dbOk {
        return false;
      }
      table := table[key := value];
      if redisOk {
        cache := None;
      }
      return true;
    }
  }

  // ---------------------------------------------------------------- runs

  predicate Initial(s: State) {
    s.cache == None && s.readers == map[]
  }

  ghost predicate Step(ss: seq<State>, acts: seq<Action>, gap: nat, i: nat) {
    |ss| == |acts| + 1 && i < |acts| && Ready(ss[i], acts[i]) && Timely(ss[i], acts[i], gap) && ss[i + 1] == Next(ss[i], acts[i])
  }

  /** `ss[i + 1]` follows from `ss[i]` by `acts[i]`, and no reader dawdles for more than `gap`. */
  ghost predicate Run(ss: seq<State>, acts: seq<Action>, gap: nat) {
    && |ss| == |acts| + 1
    && Initial(ss[0])
    && forall i :: 0 <= i < |acts| ==> Step(ss, acts, gap, i)
  }

  lemma {:induction false} TimeForward(ss: seq<State>, acts: seq<Action>, gap: nat, i: nat, j: nat)
    requires Run(ss, acts, gap) && i <= j < |ss|
    ensures ss[i].now <= ss[j].now
    decreases j
  {
    if i < j {
      TimeForward(ss, acts, gap, i, j - 1);
      assert Step(ss, acts, gap, j - 1);
    }
  }

  /** The value of the last write to `key` in the first `i` steps. */
  function LastWritten(acts: seq<Action>, i: nat, key: string): Option<string>
    requires i <= |acts|
  {
    if i == 0 then None
    else if acts[i - 1].Write? && acts[i - 1].key == key then Some(acts[i - 1].value)
    else LastWritten(acts, i - 1, key)
  }

  function Value(t: Table, key: string): Option<string> {
    if key in t then Some(t[key]) else None
  }

  /** At any moment a key has the value last written to it, and a key never written has its first value, if any. */
  lemma {:induction false} TableIsLastWrites(ss: seq<State>, acts: seq<Action>, gap: nat, i: nat, key: string)
    requires Run(ss, acts, gap) && i < |ss|
    ensures Value(ss[i].table, key) ==
            if LastWritten(acts, i, key).Some? then LastWritten(acts, i, key) else Value(ss[0].table, key)
    ensures forall w :: 0 <= w < i && acts[w].Write? && acts[w].key == key ==> LastWritten(acts, i, key).Some?
  {
    if i > 0 {
      TableIsLastWrites(ss, acts, gap, i - 1, key);
      assert Step(ss, acts, gap, i - 1);
    }
  }

  /** The fill at `x` gives what its reader queried at `a`: the reader did not query again in between. */
  ghost predicate Feeds(acts: seq<Action>, a: nat, x: nat) {
    && a < x < |acts| && acts[a].Load? && acts[x].Fill? && acts[a].r == acts[x].r
    && forall y :: a < y < x ==> !(acts[y].Load? && acts[y].r == acts[x].r)
  }

  /** The fill at `x` reached Redis and is what the cache still holds before step `h`. */
  ghost predicate LastFill(acts: seq<Action>, x: nat, h: nat) {
    && x < h <= |acts| && acts[x].Fill? && acts[x].redisOk
    && forall y :: x < y < h ==> !(acts[y].Fill? && acts[y].redisOk) && acts[y] != Delete(true) && acts[y] != Evict
  }

  /** What a reader holds at `i` is what it queried at its last query `l`, at most `gap` ago. */
  lemma {:induction false} ReaderProvenance(ss: seq<State>, acts: seq<Action>, gap: nat, i: nat, r: ReaderId) returns (l: nat)
    requires Run(ss, acts, gap) && i < |ss|
    requires r in ss[i].readers && ss[i].readers[r].Loaded?
    ensures l < i && acts[l].Load? && acts[l].r == r
    ensures forall y :: l < y < i ==> !(acts[y].Load? && acts[y].r == r)
    ensures ss[i].readers[r] == Loaded(Query(ss[l], acts[l].dbOk), ss[l].now)
    ensures ss[i].now <= ss[l].now + gap
  {
    assert i > 0;
    assert Step(ss, acts, gap, i - 1);
    if acts[i - 1].Load? && acts[i - 1].r == r {
      l := i - 1;
    } else {
      l := ReaderProvenance(ss, acts, gap, i - 1, r);
    }
  }

  /** The cached map at `i` was put there by the last fill, at step `x`, and had been queried at step `l`. */
  ghost predicate CachedBy(ss: seq<State>, acts: seq<Action>, gap: nat, i: nat, l: nat, x: nat) {
    && |ss| == |acts| + 1 && i < |ss|
    && Feeds(acts, l, x) && LastFill(acts, x, i) && ss[i].cache.Some?
    && ss[i].cache.value.table == Query(ss[l], acts[l].dbOk)
    && ss[i].cache.value.expiresAt <= ss[l].now + gap + TTL
  }

  lemma {:induction false} CacheProvenance(ss: seq<State>, acts: seq<Action>, gap: nat, i: nat) returns (l: nat, x: nat)
    requires Run(ss, acts, gap) && i < |ss| && ss[i].cache.Some?
    ensures CachedBy(ss, acts, gap, i, l, x)
  {
    assert i > 0;
    assert Step(ss, acts, gap, i - 1);
    if acts[i - 1].Fill? && acts[i - 1].redisOk {
      x := i - 1;
      l := ReaderProvenance(ss, acts, gap, x, acts[x].r);
    } else {
      l, x := CacheProvenance(ss, acts, gap, i - 1);
    }
  }

  /** The query behind the answer at `h`: a reader's own, or that of the last fill before a hit. */
  ghost predicate SourceOf(acts: seq<Action>, l: nat, h: nat) {
    h < |acts| && if acts[h].Fill? then Feeds(acts, l, h) else exists x :: Feeds(acts, l, x) && LastFill(acts, x, h)
  }

  /** An answer has one source. */
  lemma SourceUnique(acts: seq<Action>, a: nat, b: nat, h: nat)
    requires SourceOf(acts, a, h) && SourceOf(acts, b, h)
    ensures a == b
  {
  }

  // ---------------------------------------------------------------- what callers see

  /**
   Bounded staleness: every returned map is what its source query found, at a step `j` of the
   last `TTL + gap` seconds.
   */
  lemma BoundedStaleness(ss: seq<State>, acts: seq<Action>, gap: nat, i: nat) returns (j: nat)
    requires Run(ss, acts, gap) && i < |acts|
    requires acts[i].Hit? || acts[i].Fill?
    ensures Ready(ss[i], acts[i]) && SourceOf(acts, j, i)
    ensures j < i && acts[j].Load? && ss[i].now - (60 + gap) <= ss[j].now <= ss[i].now
    ensures Returned(ss[i], acts[i]) == Some(if acts[j].dbOk then ss[j].table else map[])
  {
    assert Step(ss, acts, gap, i);
    if acts[i].Fill? {
      j := ReaderProvenance(ss, acts, gap, i, acts[i].r);
    } else {
      var x;
      j, x := CacheProvenance(ss, acts, gap, i);
    }
    TimeForward(ss, acts, gap, j, i);
  }

  /** The returned map was the table at the moment of its source query exactly if that query succeeded or the table was empty. */
  lemma ReturnedWasTheTable(ss: seq<State>, acts: seq<Action>, gap: nat, i: nat, j: nat)
    requires Run(ss, acts, gap) && i < |acts| && (acts[i].Hit? || acts[i].Fill?) && SourceOf(acts, j, i)
    ensures Ready(ss[i], acts[i]) && j < i && ss[i].now - (TTL + gap) <= ss[j].now <= ss[i].now
    ensures Returned(ss[i], acts[i]) == Some(ss[j].table) <==> acts[j].dbOk || ss[j].table == map[]
  {
    var k := BoundedStaleness(ss, acts, gap, i);
    SourceUnique(acts, j, k, i);
  }

  /** Even if no invalidation succeeds, a write is seen by every answer later than `TTL + gap`. */
  lemma WriteSeenAfterTtl(ss: seq<State>, acts: seq<Action>, gap: nat, w: nat, i: nat) returns (j: nat)
    requires Run(ss, acts, gap) && w < i < |acts| && acts[w].Write?
    requires acts[i].Hit? || acts[i].Fill?
    requires ss[i].now > ss[w].now + 60 + gap
    ensures Ready(ss[i], acts[i]) && SourceOf(acts, j, i)
    ensures w < j < i && acts[j].Load? && Returned(ss[i], acts[i]) == Some(Query(ss[j], acts[j].dbOk))
  {
    j := BoundedStaleness(ss, acts, gap, i);
    if j <= w {
      TimeForward(ss, acts, gap, j, w);
    }
  }

  /** The read that is answered at `h` starts at `m`: a hit at once, a fill with its reader's last miss. */
  ghost predicate StartsAt(acts: seq<Action>, m: nat, h: nat) {
    h < |acts| &&
    if acts[h].Hit? then m == h
    else
      && m < h && acts[h].Fill? && acts[m] == Miss(acts[h].r)
      && forall y :: m < y < h ==> acts[y] != Miss(acts[h].r)
  }

  /** A reader that queried before `w` filled the cache after `d`, and its map is still there at `h`. */
  ghost predicate Raced(acts: seq<Action>, w: nat, d: nat, h: nat) {
    exists a: nat, x: nat :: a < w && d < x < h && Feeds(acts, a, x) && LastFill(acts, x, h)
  }

  /** Between a reader's miss and its fill lies its query. */
  lemma {:induction false} QueryAfterMiss(ss: seq<State>, acts: seq<Action>, gap: nat, m: nat, i: nat, r: ReaderId)
    requires Run(ss, acts, gap) && m < i < |ss| && acts[m] == Miss(r)
    requires r in ss[i].readers && ss[i].readers[r].Loaded?
    ensures exists y :: m < y < i && acts[y].Load? && acts[y].r == r
    decreases i
  {
    assert Step(ss, acts, gap, i - 1);
    if !(acts[i - 1].Load? && acts[i - 1].r == r) {
      QueryAfterMiss(ss, acts, gap, m, i - 1, r);
    }
  }

  /**
   A read that starts after a write at `w` and its successful invalidation at `d`. Its map was
   queried before the write if and only if it is a hit on what a racing reader left behind;
   otherwise it was queried after the write.
   */
  lemma MissesWriteIffRaced(ss: seq<State>, acts: seq<Action>, gap: nat, w: nat, d: nat, m: nat, h: nat) returns (l: nat)
    requires Run(ss, acts, gap) && w < d < m <= h < |acts|
    requires acts[w].Write? && acts[d] == Delete(true) && StartsAt(acts, m, h)
    ensures Ready(ss[h], acts[h]) && SourceOf(acts, l, h) && l != w
    ensures Returned(ss[h], acts[h]) == Some(Query(ss[l], acts[l].dbOk))
    ensures l < w <==> acts[h].Hit? && Raced(acts, w, d, h)
    ensures w < l && acts[l].dbOk ==>
            LastWritten(acts, l, acts[w].key).Some? &&
            Value(Returned(ss[h], acts[h]).value, acts[w].key) == LastWritten(acts, l, acts[w].key)
  {
    l := BoundedStaleness(ss, acts, gap, h);
    TableIsLastWrites(ss, acts, gap, l, acts[w].key);
    if acts[h].Fill? {
      assert Step(ss, acts, gap, h);
      QueryAfterMiss(ss, acts, gap, m, h, acts[h].r);
    } else {
      var x :| Feeds(acts, l, x) && LastFill(acts, x, h);
      assert d < x;
      forall a: nat, y: nat | a < w && d < y < h && Feeds(acts, a, y) && LastFill(acts, y, h) ensures l < w {
        assert SourceOf(acts, a, h);
        SourceUnique(acts, a, l, h);
      }
    }
  }

  // ---------------------------------------------------------------- the two known holes

  /** The race is real: a write, its successful invalidation, and then a hit that misses the write. */
  lemma RaceExists() returns (ss: seq<State>, acts: seq<Action>)
    ensures Run(ss, acts, 0) && |acts| == 6
    ensures acts[2] == Write("k", "new") && acts[3] == Delete(true) && acts[5].Hit?
    ensures Ready(ss[5], acts[5]) && ss[5].table == map["k" := "new"]
    ensures Returned(ss[5], acts[5]) == Some(map["k" := "old"])
  {
    var s0 := State(0, map["k" := "old"], None, map[]);
    acts := [Miss(0), Load(0, true), Write("k", "new"), Delete(true), Fill(0, true), Hit(1)];
    var s1 := Next(s0, acts[0]);
    var s2 := Next(s1, acts[1]);
    var s3 := Next(s2, acts[2]);
    var s4 := Next(s3, acts[3]);
    var s5 := Next(s4, acts[4]);
    ss := [s0, s1, s2, s3, s4, s5, s5];
    forall i | 0 <= i < |acts| ensures Step(ss, acts, 0, i) {
    }
  }

  /** A query that fails is cached as the empty map and answers for a whole TTL. */
  lemma FailedQueryIsServed(t: Table, d: nat) returns (ss: seq<State>, acts: seq<Action>)
    requires d <= 60
    ensures Run(ss, acts, 0) && |acts| == 5
    ensures forall i :: 0 <= i < |ss| ==> ss[i].table == t
    ensures acts[4].Hit? && ss[4].now == ss[0].now + d
    ensures Ready(ss[4], acts[4]) && Returned(ss[4], acts[4]) == Some(map[])
  {
    var s0 := State(0, t, None, map[]);
    acts := [Miss(0), Load(0, false), Fill(0, true), Tick(d), Hit(1)];
    var s1 := Next(s0, acts[0]);
    var s2 := Next(s1, acts[1]);
    var s3 := Next(s2, acts[2]);
    var s4 := Next(s3, acts[3]);
    ss := [s0, s1, s2, s3, s4, s4];
    forall i | 0 <= i < |acts| ensures Step(ss, acts, 0, i) {
    }
  }
}
