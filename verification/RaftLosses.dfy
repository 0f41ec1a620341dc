/** The run in which a read loses an entry: one blob write is cut short, later
    appends of the same payload are reported as stored, and once the cache has
    evicted an entry the read skips its index without an error. */
module RaftLosses {
  import opened Prelude
  import opened ObjectFormat
  import opened ObjectStore
  import opened LruCache
  import opened RaftStorage
  import opened RaftLogRefinement

  lemma {:induction false} RunChains(codec: Codec, s: Storage, log: Log, a: seq<Op>, b: seq<Op>)
    ensures Run(codec, s, a + b) == Run(codec, Run(codec, s, a), b)
    ensures LogOf(codec, s, log, a + b) == LogOf(codec, Run(codec, s, a), LogOf(codec, s, log, a), b)
    ensures GapFree(codec, s, a + b) <==> GapFree(codec, s, a) && GapFree(codec, Run(codec, s, a), b)
    decreases |a|
  {
    if a == [] {
      assert a + b == b;
    } else {
      assert (a + b)[1..] == a[1..] + b && (a + b)[0] == a[0];
      RunChains(codec, Apply(codec, s, a[0]), Logged(codec, s, log, a[0]), a[1..], b);
    }
  }

  function EntryOf(i: nat, data: Bytes): Entry {
    Entry(i, 1, 0, data)
  }

  /** An append of the payload that is cut short, then `n` that report success. */
  function Appends(data: Bytes, n: nat): seq<Op> {
    if n == 0 then [AppendOp(EntryOf(1, data), CutShort)]
    else Appends(data, n - 1) + [AppendOp(EntryOf(n, data), Written)]
  }

  /** The indexes from `n` down to 1. */
  function Down(n: nat): seq<nat> {
    if n == 0 then [] else [n] + Down(n - 1)
  }

  lemma {:induction false} DownFacts(n: nat)
    ensures |Down(n)| == n && forall k :: k in Down(n) <==> 1 <= k <= n
    ensures n > 0 ==> Down(n)[n - 1] == 1
  {
    if n > 0 {
      DownFacts(n - 1);
    }
  }

  ghost predicate AppendedTo(codec: Codec, s: Storage, log: Log, data: Bytes, n: nat) {
    && s.files == map[BlobKey(codec, data) := Torn] && s.first == 1 && s.last == n
    && |s.hashes| == n + 1 && (forall i | 1 <= i <= n :: s.hashes[i] == Some(BlobKey(codec, data)))
    && (forall i :: i in log <==> 1 <= i <= n) && (forall i | i in log :: log[i] == EntryOf(i, data))
  }

  lemma OneMoreAppend(codec: Codec, s: Storage, log: Log, data: Bytes, n: nat)
    requires AppendedTo(codec, s, log, data, n)
    ensures
      var op := AppendOp(EntryOf(n + 1, data), Written);
      && AppendedTo(codec, Run(codec, s, [op]), LogOf(codec, s, log, [op]), data, n + 1)
      && Run(codec, s, [op]).cache == PutIn(s.cache, ENTRY_CACHE_SIZE, n + 1, EntryOf(n + 1, data))
      && GapFree(codec, s, [op])
  {
    var op := AppendOp(EntryOf(n + 1, data), Written);
    assert [op][1..] == [];
    assert Run(codec, s, [op]) == Append(codec, s, op.entry, op.io);
    assert LogOf(codec, s, log, [op]) == log[n + 1 := op.entry];
    assert Padded(s.hashes, n + 1) == s.hashes + [None];
  }

  lemma FirstAppendIsCutShort(codec: Codec, data: Bytes)
    ensures AppendedTo(codec, Run(codec, NewStorage(map[]), Appends(data, 0)),
                       LogOf(codec, NewStorage(map[]), map[], Appends(data, 0)), data, 0)
    ensures Run(codec, NewStorage(map[]), Appends(data, 0)).cache == LruCache.Empty()
    ensures GapFree(codec, NewStorage(map[]), Appends(data, 0))
  {
    var op := AppendOp(EntryOf(1, data), CutShort);
    assert Appends(data, 0) == [op] && [op][1..] == [];
    assert Run(codec, NewStorage(map[]), [op]) == Append(codec, NewStorage(map[]), op.entry, op.io);
  }

  /** The cache holds the indexes from 1 to `n`, the latest first. */
  ghost predicate HoldsUpTo(cache: Lru<Entry>, n: nat) {
    cache.order == Down(n) && (forall k :: k in cache.entries <==> 1 <= k <= n)
  }

  lemma CacheGains(cache: Lru<Entry>, n: nat, e: Entry)
    requires HoldsUpTo(cache, n) && n < ENTRY_CACHE_SIZE
    ensures HoldsUpTo(PutIn(cache, ENTRY_CACHE_SIZE, n + 1, e), n + 1)
  {
    DownFacts(n);
  }

  lemma CacheLosesTheFirst(cache: Lru<Entry>, e: Entry)
    requires HoldsUpTo(cache, ENTRY_CACHE_SIZE)
    ensures
      var cache' := PutIn(cache, ENTRY_CACHE_SIZE, ENTRY_CACHE_SIZE + 1, e);
      1 !in cache'.entries && 2 in cache'.entries
  {
    DownFacts(ENTRY_CACHE_SIZE);
  }

  lemma AppendsStep(codec: Codec, data: Bytes, n: nat)
    requires
      AppendedTo(codec, Run(codec, NewStorage(map[]), Appends(data, n)),
                 LogOf(codec, NewStorage(map[]), map[], Appends(data, n)), data, n)
    requires GapFree(codec, NewStorage(map[]), Appends(data, n))
    ensures
      var s' := Run(codec, NewStorage(map[]), Appends(data, n + 1));
      && AppendedTo(codec, s', LogOf(codec, NewStorage(map[]), map[], Appends(data, n + 1)), data, n + 1)
      && s'.cache == PutIn(Run(codec, NewStorage(map[]), Appends(data, n)).cache, ENTRY_CACHE_SIZE, n + 1,
                           EntryOf(n + 1, data))
      && GapFree(codec, NewStorage(map[]), Appends(data, n + 1))
  {
    var s := Run(codec, NewStorage(map[]), Appends(data, n));
    var log := LogOf(codec, NewStorage(map[]), map[], Appends(data, n));
    OneMoreAppend(codec, s, log, data, n);
    RunChains(codec, NewStorage(map[]), map[], Appends(data, n), [AppendOp(EntryOf(n + 1, data), Written)]);
  }

  /** As long as the cache has room, it holds every index. */
  lemma {:induction false} CacheFillsUp(codec: Codec, data: Bytes, n: nat)
    requires n <= ENTRY_CACHE_SIZE
    ensures AppendedTo(codec, Run(codec, NewStorage(map[]), Appends(data, n)),
                       LogOf(codec, NewStorage(map[]), map[], Appends(data, n)), data, n)
    ensures HoldsUpTo(Run(codec, NewStorage(map[]), Appends(data, n)).cache, n)
    ensures GapFree(codec, NewStorage(map[]), Appends(data, n))
  {
    if n == 0 {
      FirstAppendIsCutShort(codec, data);
    } else {
      CacheFillsUp(codec, data, n - 1);
      AppendsStep(codec, data, n - 1);
      CacheGains(Run(codec, NewStorage(map[]), Appends(data, n - 1)).cache, n - 1, EntryOf(n, data));
    }
  }

  lemma ReadSkipsTorn(codec: Codec, s: Storage, log: Log, data: Bytes, n: nat, i: nat)
    requires AppendedTo(codec, s, log, data, n) && 1 <= i <= n && i !in s.cache.entries
    ensures Entries(s, i, i + 1, None).1 == []
  {
    assert s.hashes[i] == Some(BlobKey(codec, data));
    assert EntryAt(s, i).None?;
    ReadOnLess(s, i, i + 1, None, false, 0);
  }

  /** One append more than the cache holds: index 1 was appended, reported as stored
      and never compacted, appends had no gap, and a read of it returns nothing,
      while its neighbour is still served from the cache. */
  lemma TornPayloadIsSkipped(codec: Codec, data: Bytes)
    ensures
      var ops := Appends(data, ENTRY_CACHE_SIZE + 1);
      var s, log := Run(codec, NewStorage(map[]), ops), LogOf(codec, NewStorage(map[]), map[], ops);
      && GapFree(codec, NewStorage(map[]), ops)
      && s.first == 1 && s.last == ENTRY_CACHE_SIZE + 1
      && 1 in log && log[1] == EntryOf(1, data)
      && Entries(s, 1, 2, None).1 == []
      && 2 in s.cache.entries
  {
    var n := ENTRY_CACHE_SIZE;
    CacheFillsUp(codec, data, n);
    AppendsStep(codec, data, n);
    CacheLosesTheFirst(Run(codec, NewStorage(map[]), Appends(data, n)).cache, EntryOf(n + 1, data));
    ReadSkipsTorn(codec, Run(codec, NewStorage(map[]), Appends(data, n + 1)),
                  LogOf(codec, NewStorage(map[]), map[], Appends(data, n + 1)), data, n + 1, 1);
  }
}
