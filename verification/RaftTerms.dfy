/** When terms can be trusted: an entry keeps its term only while it is cached. */
module RaftTerms {
  import opened Prelude
  import opened ObjectFormat
  import opened ObjectStore
  import opened LruCache
  import opened RaftStorage
  import opened RaftLogRefinement

  /** The cache holds exactly the live entries, whole. */
  ghost predicate Pinned(s: Storage, log: Log) {
    && s.first <= s.last + 1
    && (forall i | s.first <= i <= s.last :: i in log && i in s.cache.entries && s.cache.entries[i] == log[i])
    && (forall i | i in s.cache.entries :: s.first <= i <= s.last)
  }

  /** The live window fits the cache. */
  predicate Narrow(s: Storage) {
    s.last + 1 <= s.first + ENTRY_CACHE_SIZE
  }

  /** Raft's own index discipline: appends extend or overwrite live entries,
      compaction points do not go backwards, reads start in the live log. */
  predicate InRange(codec: Codec, s: Storage, op: Op) {
    match op
    case AppendOp(e, io) => AppendSucceeds(codec, s, e, io) ==> s.first <= e.index <= s.last + 1
    case CompactOp(index) => index <= s.last ==> s.first <= index + 1
    case EntriesOp(low, high, _) => high <= s.last + 1 ==> s.first <= low
    case _ => true
  }

  predicate AllInRange(codec: Codec, s: Storage, ops: seq<Op>)
    decreases |ops|
  {
    ops == [] || (InRange(codec, s, ops[0]) && AllInRange(codec, Apply(codec, s, ops[0]), ops[1..]))
  }

  predicate NarrowThroughout(codec: Codec, s: Storage, ops: seq<Op>)
    decreases |ops|
  {
    Narrow(s) && (ops == [] || NarrowThroughout(codec, Apply(codec, s, ops[0]), ops[1..]))
  }

  ghost predicate PinnedThroughout(codec: Codec, s: Storage, log: Log, ops: seq<Op>)
    decreases |ops|
  {
    Pinned(s, log) &&
    (ops == [] || PinnedThroughout(codec, Apply(codec, s, ops[0]), Logged(codec, s, log, ops[0]), ops[1..]))
  }

  lemma {:induction false} PinnedRead(s: Storage, log: Log, low: nat, high: nat, limit: Option<nat>, some: bool, total: nat)
    requires Pinned(s, log) && s.first <= low && high <= s.last + 1
    ensures ReadOn(s, low, high, limit, some, total).0.cache.entries == s.cache.entries
    decreases high - low
  {
    if low < high {
      var e := log[low];
      assert EntryAt(s, low) == Some(e);
      if OverLimit(limit, some, total, |e.data|) {
        ReadOnLess(s, low, high, limit, some, total);
      } else {
        ReadOnMore(s, low, high, limit, some, total, e);
        PinnedRead(HandedOut(s, low, e), log, low + 1, high, limit, true, total + |e.data|);
      }
    }
  }

  lemma {:induction false} PinnedReadIsExact(s: Storage, log: Log, low: nat, high: nat, some: bool, total: nat)
    requires Pinned(s, log) && s.first <= low <= high <= s.last + 1
    ensures |ReadOn(s, low, high, None, some, total).1| == high - low
    ensures forall k | 0 <= k < high - low ::
              low + k in log && ReadOn(s, low, high, None, some, total).1[k] == log[low + k]
    decreases high - low
  {
    if low < high {
      var e := log[low];
      assert EntryAt(s, low) == Some(e);
      ReadOnMore(s, low, high, None, some, total, e);
      PinnedReadIsExact(HandedOut(s, low, e), log, low + 1, high, true, total + |e.data|);
      var more := ReadOn(HandedOut(s, low, e), low + 1, high, None, true, total + |e.data|).1;
      forall k | 0 < k < high - low
        ensures low + k in log && ([e] + more)[k] == log[low + k]
      {
        assert more[k - 1] == log[low + 1 + (k - 1)];
      }
    }
  }

  lemma PinnedIsNarrow(s: Storage, log: Log)
    requires Valid(s.cache, ENTRY_CACHE_SIZE) && Pinned(s, log)
    ensures |s.cache.order| == s.last + 1 - s.first
    ensures Narrow(s)
  {
    assert s.cache.entries.Keys == Range(s.first, s.last + 1);
    SizeIsOrder(s.cache, ENTRY_CACHE_SIZE);
  }

  lemma PinnedByAppend(codec: Codec, s: Storage, log: Log, e: Entry, io: WriteOutcome)
    requires Valid(s.cache, ENTRY_CACHE_SIZE) && Pinned(s, log) && InRange(codec, s, AppendOp(e, io))
    requires AppendSucceeds(codec, s, e, io) && Narrow(Append(codec, s, e, io))
    ensures Pinned(Append(codec, s, e, io), log[e.index := e])
  {
    PinnedIsNarrow(s, log);
    assert e.index in s.cache.entries || |s.cache.order| < ENTRY_CACHE_SIZE;
    PutFacts(s.cache, ENTRY_CACHE_SIZE, e.index, e);
    var s' := Append(codec, s, e, io);
    assert s'.cache.entries == s.cache.entries[e.index := e];
    PinnedByExtending(s, s', log, e);
  }

  lemma PinnedByExtending(s: Storage, s': Storage, log: Log, e: Entry)
    requires Pinned(s, log) && s.first <= e.index <= s.last + 1
    requires s'.first == s.first && s'.last == (if e.index > s.last then e.index else s.last)
    requires s'.cache.entries == s.cache.entries[e.index := e]
    ensures Pinned(s', log[e.index := e])
  {
  }

  /** While the window fits, no operation loses a live entry from the cache. */
  lemma PinnedByOp(codec: Codec, s: Storage, log: Log, op: Op)
    requires s.first >= 1 && Valid(s.cache, ENTRY_CACHE_SIZE) && Pinned(s, log) && InRange(codec, s, op)
    requires Narrow(Apply(codec, s, op))
    ensures Pinned(Apply(codec, s, op), Logged(codec, s, log, op))
  {
    match op
    case AppendOp(e, io) =>
      if AppendSucceeds(codec, s, e, io) {
        PinnedByAppend(codec, s, log, e, io);
      }
    case CompactOp(index) => PopUpToFacts(s.cache, index);
    case EntriesOp(low, high, limit) =>
      if high <= s.last + 1 {
        PinnedRead(s, log, low, high, limit, false, 0);
        ReadKeepsBounds(s, low, high, limit, false, 0);
      }
    case TermOp(index) => TouchValid(s.cache, ENTRY_CACHE_SIZE, index);
    case StoreOp(_, _) =>
  }

  /** Over a run that keeps to Raft's index discipline, whatever becomes of its
      writes to the store, every live entry stays cached whole at every step exactly
      when the live window never outgrows the cache. */
  lemma {:induction false} PinnedIffNarrow(codec: Codec, s: Storage, log: Log, ops: seq<Op>)
    requires Sound(codec, s, log) && Pinned(s, log) && AllInRange(codec, s, ops)
    ensures PinnedThroughout(codec, s, log, ops) <==> NarrowThroughout(codec, s, ops)
    decreases |ops|
  {
    PinnedIsNarrow(s, log);
    if ops != [] {
      var s', log' := Apply(codec, s, ops[0]), Logged(codec, s, log, ops[0]);
      SoundByOp(codec, s, log, ops[0]);
      if Narrow(s') {
        PinnedByOp(codec, s, log, ops[0]);
        PinnedIffNarrow(codec, s', log', ops[1..]);
      } else if Pinned(s', log') {
        PinnedIsNarrow(s', log');
      }
    }
  }

  lemma {:induction false} PinnedAtEnd(codec: Codec, s: Storage, log: Log, ops: seq<Op>)
    requires PinnedThroughout(codec, s, log, ops)
    ensures Pinned(Run(codec, s, ops), LogOf(codec, s, log, ops))
    decreases |ops|
  {
    if ops != [] {
      PinnedAtEnd(codec, Apply(codec, s, ops[0]), Logged(codec, s, log, ops[0]), ops[1..]);
    }
  }

  /** In such a run reads and terms agree exactly with the log: an unlimited read
      of live indexes returns the very entries last appended there, and the term
      of each is its own. */
  lemma NarrowRunsAreExact(codec: Codec, files: Files, ops: seq<Op>, low: nat, high: nat)
    requires AllInRange(codec, NewStorage(files), ops)
    requires NarrowThroughout(codec, NewStorage(files), ops)
    requires Run(codec, NewStorage(files), ops).first <= low <= high <= Run(codec, NewStorage(files), ops).last + 1
    ensures
      var s, log := Run(codec, NewStorage(files), ops), LogOf(codec, NewStorage(files), map[], ops);
      var got := Entries(s, low, high, None).1;
      && |got| == high - low
      && (forall k | 0 <= k < high - low :: low + k in log && got[k] == log[low + k])
      && (forall i | s.first <= i <= s.last :: i in log && Term(s, i) == Ok(log[i].term))
  {
    PinnedIffNarrow(codec, NewStorage(files), map[], ops);
    PinnedAtEnd(codec, NewStorage(files), map[], ops);
    PinnedReadIsExact(Run(codec, NewStorage(files), ops), LogOf(codec, NewStorage(files), map[], ops), low, high,
                      false, 0);
  }

  lemma UncachedTerm(s: Storage, log: Log, j: nat)
    requires Valid(s.cache, ENTRY_CACHE_SIZE) && j in log && Indexed(s.files, s.hashes, log, j)
    requires j !in s.cache.entries && s.first <= j
    ensures Term(s, j) == TermInData(log[j].data)
    ensures Entries(s, j, j + 1, None).1 == [Entry(j, 0, 0, log[j].data)]
    ensures Term(Entries(s, j, j + 1, None).0, j) == Ok(0)
  {
    var reloaded := Reloaded(j, log[j].data);
    assert EntryAt(s, j) == Some(reloaded);
    PutFacts(s.cache, ENTRY_CACHE_SIZE, j, reloaded);
    var s' := HandedOut(s, j, reloaded);
    assert ReadOn(s', j + 1, j + 1, None, true, |reloaded.data|) == (s', []);
    assert !OverLimit(None, false, 0, |reloaded.data|);
  }

  lemma FullCacheEvicts(s: Storage, e: Entry) returns (j: nat)
    requires Valid(s.cache, ENTRY_CACHE_SIZE) && |s.cache.order| == ENTRY_CACHE_SIZE && e.index !in s.cache.entries
    ensures j in s.cache.entries && j !in PutIn(s.cache, ENTRY_CACHE_SIZE, e.index, e).entries
  {
    j := s.cache.order[|s.cache.order| - 1];
    assert j in s.cache.order;
  }

  lemma StillIndexed(codec: Codec, s: Storage, log: Log, e: Entry, io: WriteOutcome, j: nat)
    requires j in log && Indexed(s.files, s.hashes, log, j) && j != e.index
    ensures Indexed(Append(codec, s, e, io).files, Append(codec, s, e, io).hashes, log, j)
  {
    PutKeepsBlobs(codec, s.files, BlobObject(e.data), io, s.hashes[j].value);
  }

  /** One entry more than the cache holds, and some live entry's term is whatever
      the first eight bytes of its payload happen to say; once a read has
      reloaded that entry, with term and kind at their defaults, its term is
      reported as 0. */
  lemma OverflowLosesATerm(codec: Codec, s: Storage, log: Log, e: Entry, io: WriteOutcome) returns (j: nat)
    requires Refines(s, log) && Pinned(s, log) && s.last + 1 == s.first + ENTRY_CACHE_SIZE
    requires AppendSucceeds(codec, s, e, io) && e.index == s.last + 1
    ensures s.first <= j <= s.last && j in log
    ensures
      var s' := Append(codec, s, e, io);
      && Term(s', j) == TermInData(log[j].data)
      && Entries(s', j, j + 1, None).1 == [Entry(j, 0, 0, log[j].data)]
      && Term(Entries(s', j, j + 1, None).0, j) == Ok(0)
  {
    PinnedIsNarrow(s, log);
    j := FullCacheEvicts(s, e);
    StillIndexed(codec, s, log, e, io, j);
    PutFacts(s.cache, ENTRY_CACHE_SIZE, e.index, e);
    UncachedTerm(Append(codec, s, e, io), log, j);
  }

  // ----- Recency -----

  lemma OneRead(s: Storage, i: nat)
    requires EntryAt(s, i).Some?
    ensures Entries(s, i, i + 1, None) == (HandedOut(s, i, EntryAt(s, i).value), [EntryAt(s, i).value])
  {
    var e := EntryAt(s, i).value;
    ReadOnMore(s, i, i + 1, None, false, 0, e);
    assert ReadOn(HandedOut(s, i, e), i + 1, i + 1, None, true, 0 + |e.data|) == (HandedOut(s, i, e), []);
    assert [e] + [] == [e];
  }

  lemma PutGoesFirst<V>(c: Lru<V>, capacity: nat, k: nat, v: V)
    requires capacity > 0
    ensures PutIn(c, capacity, k, v).order != [] && PutIn(c, capacity, k, v).order[0] == k
  {
  }

  /** An append that succeeds makes its index the most recently used. */
  lemma AppendRefreshes(codec: Codec, s: Storage, e: Entry, io: WriteOutcome)
    requires AppendSucceeds(codec, s, e, io)
    ensures
      var order := Append(codec, s, e, io).cache.order;
      order != [] && order[0] == e.index
  {
    PutGoesFirst(s.cache, ENTRY_CACHE_SIZE, e.index, e);
  }

  /** So does a term lookup that hits, or a read, from the cache or reloaded; a hit
      moves no other index, and a term lookup that misses or is out of range moves
      none at all. */
  lemma LookupsRefresh(s: Storage, i: nat)
    ensures i in s.cache.entries && i >= s.first ==>
              AfterTerm(s, i).cache == Lru(s.cache.entries, [i] + Forget(s.cache.order, i))
    ensures i !in s.cache.entries || i < s.first ==> AfterTerm(s, i) == s
    ensures i in s.cache.entries ==>
              Entries(s, i, i + 1, None).0.cache == Lru(s.cache.entries, [i] + Forget(s.cache.order, i))
    ensures i !in s.cache.entries && EntryAt(s, i).Some? ==>
              var order := Entries(s, i, i + 1, None).0.cache.order;
              order != [] && order[0] == i
  {
    if EntryAt(s, i).Some? {
      OneRead(s, i);
      PutGoesFirst(s.cache, ENTRY_CACHE_SIZE, i, EntryAt(s, i).value);
    }
  }
}
