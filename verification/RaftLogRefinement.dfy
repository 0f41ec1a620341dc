/** The storage against a plain map from index to the last entry appended there. */
module RaftLogRefinement {
  import opened Prelude
  import opened ObjectFormat
  import opened ObjectStore
  import opened LruCache
  import opened RaftStorage

  type Log = map<nat, Entry>

  // ----- The refinement relation -----

  /** The payload logged at `i` can be read back through the hash index. */
  predicate Indexed(files: Files, hashes: seq<Option<Hash>>, log: Log, i: nat)
    requires i in log
  {
    log[i].index == i && StoredData(files, hashes, i) == Some(log[i].data)
  }

  ghost predicate IndexRefines(files: Files, hashes: seq<Option<Hash>>, log: Log) {
    && (forall i | i in log :: Indexed(files, hashes, log, i))
    && (forall i | 0 <= i < |hashes| && hashes[i].Some? :: i in log)
  }

  predicate CachedRight(cache: Lru<Entry>, log: Log, i: nat)
    requires i in cache.entries
  {
    i in log && cache.entries[i].index == i && cache.entries[i].data == log[i].data
  }

  ghost predicate CacheRefines(cache: Lru<Entry>, log: Log) {
    Valid(cache, ENTRY_CACHE_SIZE) && forall i | i in cache.entries :: CachedRight(cache, log, i)
  }

  ghost predicate Refines(s: Storage, log: Log) {
    && s.first >= 1 && (forall i | i in log :: i <= s.last)
    && IndexRefines(s.files, s.hashes, log) && CacheRefines(s.cache, log)
  }

  datatype Op =
    | AppendOp(entry: Entry, io: WriteOutcome)
    | CompactOp(index: nat)
    | EntriesOp(low: nat, high: nat, limit: Option<nat>)
    | TermOp(index: nat)
    | StoreOp(obj: Object, io: WriteOutcome) // another user of the same store

  function Apply(codec: Codec, s: Storage, op: Op): Storage {
    match op
    case AppendOp(e, io) => Append(codec, s, e, io)
    case CompactOp(index) => Compact(s, index)
    case EntriesOp(low, high, limit) =>
      // A read past the end of the log panics before it touches anything.
      if high <= s.last + 1 then Entries(s, low, high, limit).0 else s
    case TermOp(index) => AfterTerm(s, index)
    case StoreOp(obj, io) => s.(files := Put(codec, s.files, obj, io))
  }

  function Logged(codec: Codec, s: Storage, log: Log, op: Op): Log {
    if op.AppendOp? && AppendSucceeds(codec, s, op.entry, op.io) then log[op.entry.index := op.entry] else log
  }

  function Run(codec: Codec, s: Storage, ops: seq<Op>): Storage
    decreases |ops|
  {
    if ops == [] then s else Run(codec, Apply(codec, s, ops[0]), ops[1..])
  }

  /** The plain map: every successful append overwrites its index. */
  function LogOf(codec: Codec, s: Storage, log: Log, ops: seq<Op>): Log
    decreases |ops|
  {
    if ops == [] then log
    else LogOf(codec, Apply(codec, s, ops[0]), Logged(codec, s, log, ops[0]), ops[1..])
  }

  // ----- What holds of every run, however its writes fail -----

  /** The slot of a payload holds exactly that payload. */
  predicate Backed(codec: Codec, files: Files, data: Bytes) {
    var key := BlobKey(codec, data);
    key in files && files[key] == Whole(BlobObject(data))
  }

  ghost predicate AllBacked(codec: Codec, files: Files, log: Log) {
    forall i | i in log :: Backed(codec, files, log[i].data)
  }

  /** The hash index points at the slot of the payload logged at `i`, and something
      is in that slot. */
  predicate Pointed(codec: Codec, s: Storage, log: Log, i: nat)
    requires i in log
  {
    && log[i].index == i <= s.last && BlobKey(codec, log[i].data) in s.files
    && i < |s.hashes| && s.hashes[i] == Some(BlobKey(codec, log[i].data))
  }

  /** A cached entry has the logged payload, or what its slot serves instead. */
  predicate CachedSound(codec: Codec, files: Files, cache: Lru<Entry>, log: Log, i: nat)
    requires i in cache.entries
  {
    && i in log && cache.entries[i].index == i
    && (cache.entries[i].data == log[i].data
        || GetBlob(files, BlobKey(codec, log[i].data)) == Ok(cache.entries[i].data))
  }

  ghost predicate CacheSound(codec: Codec, files: Files, cache: Lru<Entry>, log: Log) {
    Valid(cache, ENTRY_CACHE_SIZE) && forall i | i in cache.entries :: CachedSound(codec, files, cache, log, i)
  }

  ghost predicate Sound(codec: Codec, s: Storage, log: Log) {
    && s.first >= 1
    && (forall i | i in log :: Pointed(codec, s, log, i))
    && (forall i | 0 <= i < |s.hashes| && s.hashes[i].Some? :: i in log)
    && CacheSound(codec, s.files, s.cache, log)
  }

  lemma PointedByAppend(codec: Codec, s: Storage, log: Log, e: Entry, io: WriteOutcome)
    requires Sound(codec, s, log) && AppendSucceeds(codec, s, e, io)
    ensures
      var s', log' := Append(codec, s, e, io), log[e.index := e];
      && (forall i | i in log' :: Pointed(codec, s', log', i))
      && (forall i | 0 <= i < |s'.hashes| && s'.hashes[i].Some? :: i in log')
  {
    var s', log' := Append(codec, s, e, io), log[e.index := e];
    forall i | i in log'
      ensures Pointed(codec, s', log', i)
    {
      if i != e.index {
        assert Pointed(codec, s, log, i);
        PutKeepsBlobs(codec, s.files, BlobObject(e.data), io, BlobKey(codec, log[i].data));
      }
    }
    forall i | 0 <= i < |s'.hashes| && s'.hashes[i].Some?
      ensures i in log'
    {
      assert i != e.index ==> i < |s.hashes| && s.hashes[i].Some?;
    }
  }

  lemma CacheSoundByAppend(codec: Codec, s: Storage, log: Log, e: Entry, io: WriteOutcome)
    requires CacheSound(codec, s.files, s.cache, log) && AppendSucceeds(codec, s, e, io)
    ensures CacheSound(codec, Append(codec, s, e, io).files, Append(codec, s, e, io).cache, log[e.index := e])
  {
    var s' := Append(codec, s, e, io);
    PutFacts(s.cache, ENTRY_CACHE_SIZE, e.index, e);
    forall i | i in s'.cache.entries
      ensures CachedSound(codec, s'.files, s'.cache, log[e.index := e], i)
    {
      if i != e.index {
        assert CachedSound(codec, s.files, s.cache, log, i);
        PutKeepsBlobs(codec, s.files, BlobObject(e.data), io, BlobKey(codec, log[i].data));
      }
    }
  }

  lemma SoundByPut(codec: Codec, s: Storage, log: Log, obj: Object, io: WriteOutcome)
    requires Sound(codec, s, log)
    ensures Sound(codec, s.(files := Put(codec, s.files, obj, io)), log)
  {
    var s' := s.(files := Put(codec, s.files, obj, io));
    forall i | i in log
      ensures Pointed(codec, s', log, i)
    {
      assert Pointed(codec, s, log, i);
      PutKeepsBlobs(codec, s.files, obj, io, BlobKey(codec, log[i].data));
    }
    forall i | i in s.cache.entries
      ensures CachedSound(codec, s'.files, s.cache, log, i)
    {
      assert CachedSound(codec, s.files, s.cache, log, i);
      PutKeepsBlobs(codec, s.files, obj, io, BlobKey(codec, log[i].data));
    }
  }

  lemma CacheSoundByTouch(codec: Codec, s: Storage, log: Log, i: nat)
    requires CacheSound(codec, s.files, s.cache, log)
    ensures CacheSound(codec, s.files, Touch(s.cache, i), log)
  {
    TouchValid(s.cache, ENTRY_CACHE_SIZE, i);
    forall j | j in s.cache.entries
      ensures CachedSound(codec, s.files, Touch(s.cache, i), log, j)
    {
      assert CachedSound(codec, s.files, s.cache, log, j);
    }
  }

  lemma CacheSoundByHandOut(codec: Codec, s: Storage, log: Log, i: nat)
    requires Sound(codec, s, log) && EntryAt(s, i).Some?
    ensures CacheSound(codec, s.files, HandedOut(s, i, EntryAt(s, i).value).cache, log)
  {
    if i in s.cache.entries {
      CacheSoundByTouch(codec, s, log, i);
    } else {
      var e := EntryAt(s, i).value;
      assert i in log && Pointed(codec, s, log, i);
      PutFacts(s.cache, ENTRY_CACHE_SIZE, i, e);
      var cache' := PutIn(s.cache, ENTRY_CACHE_SIZE, i, e);
      forall j | j in cache'.entries
        ensures CachedSound(codec, s.files, cache', log, j)
      {
        assert j != i ==> CachedSound(codec, s.files, s.cache, log, j);
      }
    }
  }

  lemma SoundByCache(codec: Codec, s: Storage, cache: Lru<Entry>, log: Log)
    requires Sound(codec, s, log) && CacheSound(codec, s.files, cache, log)
    ensures Sound(codec, s.(cache := cache), log)
  {
    forall i | i in log
      ensures Pointed(codec, s.(cache := cache), log, i)
    {
      assert Pointed(codec, s, log, i);
    }
  }

  lemma SoundByLookUp(codec: Codec, s: Storage, log: Log, i: nat)
    requires Sound(codec, s, log)
    ensures Sound(codec, LookedUp(s, i), log)
    ensures EntryAt(s, i).Some? ==> Sound(codec, HandedOut(s, i, EntryAt(s, i).value), log)
  {
    CacheSoundByTouch(codec, s, log, i);
    SoundByCache(codec, s, LookedUp(s, i).cache, log);
    if EntryAt(s, i).Some? {
      CacheSoundByHandOut(codec, s, log, i);
      SoundByCache(codec, s, HandedOut(s, i, EntryAt(s, i).value).cache, log);
    }
  }

  ghost predicate SoundAfter(codec: Codec, s: Storage, log: Log, low: nat, high: nat, limit: Option<nat>,
                             some: bool, total: nat) {
    Sound(codec, ReadOn(s, low, high, limit, some, total).0, log)
  }

  lemma SoundAfterLess(codec: Codec, s: Storage, log: Log, low: nat, high: nat, limit: Option<nat>,
                       some: bool, total: nat)
    requires low < high && Sound(codec, LookedUp(s, low), log)
    requires EntryAt(s, low).None? ==> SoundAfter(codec, s, log, low + 1, high, limit, some, total)
    requires EntryAt(s, low).Some? ==> OverLimit(limit, some, total, |EntryAt(s, low).value.data|)
    ensures SoundAfter(codec, s, log, low, high, limit, some, total)
  {
    ReadOnLess(s, low, high, limit, some, total);
  }

  lemma SoundAfterMore(codec: Codec, s: Storage, log: Log, low: nat, high: nat, limit: Option<nat>,
                       some: bool, total: nat, e: Entry)
    requires low < high && EntryAt(s, low) == Some(e) && !OverLimit(limit, some, total, |e.data|)
    requires SoundAfter(codec, HandedOut(s, low, e), log, low + 1, high, limit, true, total + |e.data|)
    ensures SoundAfter(codec, s, log, low, high, limit, some, total)
  {
    ReadOnMore(s, low, high, limit, some, total, e);
  }

  lemma {:induction false} SoundByRead(codec: Codec, s: Storage, log: Log, low: nat, high: nat, limit: Option<nat>,
                                       some: bool, total: nat)
    requires Sound(codec, s, log)
    ensures SoundAfter(codec, s, log, low, high, limit, some, total)
    decreases high - low
  {
    if low < high {
      SoundByLookUp(codec, s, log, low);
      match EntryAt(s, low)
      case None =>
        SoundByRead(codec, s, log, low + 1, high, limit, some, total);
        SoundAfterLess(codec, s, log, low, high, limit, some, total);
      case Some(e) =>
        if OverLimit(limit, some, total, |e.data|) {
          SoundAfterLess(codec, s, log, low, high, limit, some, total);
        } else {
          SoundByRead(codec, HandedOut(s, low, e), log, low + 1, high, limit, true, total + |e.data|);
          SoundAfterMore(codec, s, log, low, high, limit, some, total, e);
        }
    }
  }

  lemma SoundByCompact(codec: Codec, s: Storage, log: Log, index: nat)
    requires Sound(codec, s, log)
    ensures Sound(codec, Compact(s, index), log)
  {
    var s' := Compact(s, index);
    PopUpToFacts(s.cache, index);
    forall i | i in log
      ensures Pointed(codec, s', log, i)
    {
      assert Pointed(codec, s, log, i);
    }
    forall i | i in s'.cache.entries
      ensures CachedSound(codec, s'.files, s'.cache, log, i)
    {
      assert CachedSound(codec, s.files, s.cache, log, i);
    }
  }

  /** Every operation keeps hash index and cache in step with the plain map,
      whatever the disk does and whatever else is written to the store. */
  lemma SoundByOp(codec: Codec, s: Storage, log: Log, op: Op)
    requires Sound(codec, s, log)
    ensures Sound(codec, Apply(codec, s, op), Logged(codec, s, log, op))
  {
    match op
    case AppendOp(e, io) =>
      if AppendSucceeds(codec, s, e, io) {
        PointedByAppend(codec, s, log, e, io);
        CacheSoundByAppend(codec, s, log, e, io);
      } else {
        SoundByPut(codec, s, log, BlobObject(e.data), io);
      }
    case CompactOp(index) => SoundByCompact(codec, s, log, index);
    case EntriesOp(low, high, limit) => SoundByRead(codec, s, log, low, high, limit, false, 0);
    case TermOp(index) =>
      CacheSoundByTouch(codec, s, log, index);
      SoundByCache(codec, s, Touch(s.cache, index), log);
    case StoreOp(obj, io) => SoundByPut(codec, s, log, obj, io);
  }

  lemma {:induction false} SoundFrom(codec: Codec, s: Storage, log: Log, ops: seq<Op>)
    requires Sound(codec, s, log)
    ensures Sound(codec, Run(codec, s, ops), LogOf(codec, s, log, ops))
    decreases |ops|
  {
    if ops != [] {
      SoundByOp(codec, s, log, ops[0]);
      SoundFrom(codec, Apply(codec, s, ops[0]), Logged(codec, s, log, ops[0]), ops[1..]);
    }
  }

  lemma SoundRefinesIffBacked(codec: Codec, s: Storage, log: Log)
    requires Sound(codec, s, log)
    ensures Refines(s, log) <==> AllBacked(codec, s.files, log)
  {
    forall i | i in log
      ensures Pointed(codec, s, log, i)
      ensures Indexed(s.files, s.hashes, log, i) <==> Backed(codec, s.files, log[i].data)
    {
      assert Pointed(codec, s, log, i);
    }
    forall i | i in s.cache.entries
      ensures AllBacked(codec, s.files, log) ==> CachedRight(s.cache, log, i)
    {
      assert CachedSound(codec, s.files, s.cache, log, i);
      assert Pointed(codec, s, log, i);
      assert AllBacked(codec, s.files, log) ==> Backed(codec, s.files, log[i].data);
    }
  }

  /** After any run, with writes cut short, blobs tagged over and anything else in
      it: every logged payload has a file in its slot, and storage, hash index and
      cache refine the plain map if and only if each of those files is the payload
      itself. */
  lemma RefinesIffBacked(codec: Codec, files: Files, ops: seq<Op>)
    ensures
      var s, log := Run(codec, NewStorage(files), ops), LogOf(codec, NewStorage(files), map[], ops);
      && (forall i | i in log :: BlobKey(codec, log[i].data) in s.files)
      && (Refines(s, log) <==> AllBacked(codec, s.files, log))
  {
    SoundFrom(codec, NewStorage(files), map[], ops);
    var s, log := Run(codec, NewStorage(files), ops), LogOf(codec, NewStorage(files), map[], ops);
    SoundRefinesIffBacked(codec, s, log);
    forall i | i in log
      ensures BlobKey(codec, log[i].data) in s.files
    {
      assert Pointed(codec, s, log, i);
    }
  }

  /** One append: it keeps the refinement exactly when its slot is free or right. */
  lemma AppendRefinesIff(codec: Codec, s: Storage, log: Log, e: Entry, io: WriteOutcome)
    requires Sound(codec, s, log) && Refines(s, log) && AppendSucceeds(codec, s, e, io)
    ensures Refines(Append(codec, s, e, io), log[e.index := e]) <==> SlotServes(codec, s.files, e.data)
  {
    SoundByOp(codec, s, log, AppendOp(e, io));
    SoundRefinesIffBacked(codec, s, log);
    var s', log' := Append(codec, s, e, io), log[e.index := e];
    SoundRefinesIffBacked(codec, s', log');
    assert Backed(codec, s'.files, e.data) <==> SlotServes(codec, s.files, e.data);
    forall i | i in log && i != e.index
      ensures Backed(codec, s'.files, log'[i].data)
    {
      assert Backed(codec, s.files, log[i].data);
    }
    assert log'[e.index] == e;
  }

  /** The operation, if it is an append that succeeds, finds its slot free or right. */
  predicate Served(codec: Codec, s: Storage, op: Op) {
    op.AppendOp? && AppendSucceeds(codec, s, op.entry, op.io) ==> SlotServes(codec, s.files, op.entry.data)
  }

  predicate AllServed(codec: Codec, s: Storage, ops: seq<Op>)
    decreases |ops|
  {
    ops == [] || (Served(codec, s, ops[0]) && AllServed(codec, Apply(codec, s, ops[0]), ops[1..]))
  }

  ghost predicate RefinedThroughout(codec: Codec, s: Storage, log: Log, ops: seq<Op>)
    decreases |ops|
  {
    Refines(s, log) &&
    (ops == [] || RefinedThroughout(codec, Apply(codec, s, ops[0]), Logged(codec, s, log, ops[0]), ops[1..]))
  }

  lemma FilesStay(codec: Codec, s: Storage, op: Op, key: Hash)
    ensures key in s.files ==> key in Apply(codec, s, op).files && Apply(codec, s, op).files[key] == s.files[key]
  {
    if op.EntriesOp? {
      ReadKeepsBounds(s, op.low, op.high, op.limit, false, 0);
    }
  }

  lemma OpRefinesIff(codec: Codec, s: Storage, log: Log, op: Op)
    requires Sound(codec, s, log) && Refines(s, log)
    ensures Refines(Apply(codec, s, op), Logged(codec, s, log, op)) <==> Served(codec, s, op)
  {
    if op.AppendOp? && AppendSucceeds(codec, s, op.entry, op.io) {
      AppendRefinesIff(codec, s, log, op.entry, op.io);
    } else {
      SoundByOp(codec, s, log, op);
      SoundRefinesIffBacked(codec, s, log);
      SoundRefinesIffBacked(codec, Apply(codec, s, op), log);
      forall i | i in log
        ensures Backed(codec, Apply(codec, s, op).files, log[i].data)
      {
        assert Backed(codec, s.files, log[i].data);
        FilesStay(codec, s, op, BlobKey(codec, log[i].data));
      }
    }
  }

  /** Over any run, the refinement holds at every step if and only if every
      successful append found its slot free or right. */
  lemma {:induction false} RefinedThroughoutIffServed(codec: Codec, s: Storage, log: Log, ops: seq<Op>)
    requires Sound(codec, s, log) && Refines(s, log)
    ensures RefinedThroughout(codec, s, log, ops) <==> AllServed(codec, s, ops)
    decreases |ops|
  {
    if ops != [] {
      var s', log' := Apply(codec, s, ops[0]), Logged(codec, s, log, ops[0]);
      OpRefinesIff(codec, s, log, ops[0]);
      SoundByOp(codec, s, log, ops[0]);
      if Refines(s', log') {
        RefinedThroughoutIffServed(codec, s', log', ops[1..]);
      }
    }
  }

  lemma CacheRefinesByPut(cache: Lru<Entry>, log: Log, e: Entry, log': Log)
    requires CacheRefines(cache, log)
    requires e.index in log' && log'[e.index].data == e.data
    requires forall i | i in log && i != e.index :: i in log' && log'[i] == log[i]
    ensures CacheRefines(PutIn(cache, ENTRY_CACHE_SIZE, e.index, e), log')
  {
    PutFacts(cache, ENTRY_CACHE_SIZE, e.index, e);
    var cache' := PutIn(cache, ENTRY_CACHE_SIZE, e.index, e);
    forall i | i in cache'.entries
      ensures CachedRight(cache', log', i)
    {
      assert i != e.index ==> CachedRight(cache, log, i);
    }
  }

  lemma CacheRefinesByTouch(cache: Lru<Entry>, log: Log, i: nat)
    requires CacheRefines(cache, log)
    ensures CacheRefines(Touch(cache, i), log)
  {
    TouchValid(cache, ENTRY_CACHE_SIZE, i);
    forall j | j in cache.entries
      ensures CachedRight(Touch(cache, i), log, j)
    {
      assert CachedRight(cache, log, j);
    }
  }

  lemma {:induction false} PopUpToFacts(cache: Lru<Entry>, n: nat)
    requires Valid(cache, ENTRY_CACHE_SIZE)
    ensures Valid(PopUpTo(cache, n), ENTRY_CACHE_SIZE)
    ensures forall i :: i in PopUpTo(cache, n).entries <==> i in cache.entries && !(1 <= i <= n)
    ensures forall i | i in PopUpTo(cache, n).entries :: PopUpTo(cache, n).entries[i] == cache.entries[i]
  {
    if n > 0 {
      PopUpToFacts(cache, n - 1);
      PopValid(PopUpTo(cache, n - 1), ENTRY_CACHE_SIZE, n);
    }
  }

  /** Whether it is served from the cache or reloaded, an entry that was appended
      is found under its own index with its own payload, and nothing else is. */
  lemma EntryAtIsLogged(s: Storage, log: Log, i: nat)
    requires IndexRefines(s.files, s.hashes, log) && CacheRefines(s.cache, log)
    ensures EntryAt(s, i).Some? <==> i in log
    ensures i in log ==> EntryAt(s, i).value.index == i && EntryAt(s, i).value.data == log[i].data
  {
    if i in s.cache.entries {
      assert CachedRight(s.cache, log, i);
    } else if i in log {
      assert Indexed(s.files, s.hashes, log, i);
    }
  }

  lemma CacheRefinesByHandOut(s: Storage, log: Log, i: nat)
    requires IndexRefines(s.files, s.hashes, log) && CacheRefines(s.cache, log)
    requires i in log && EntryAt(s, i).Some?
    ensures CacheRefines(HandedOut(s, i, EntryAt(s, i).value).cache, log)
  {
    EntryAtIsLogged(s, log, i);
    if i in s.cache.entries {
      CacheRefinesByTouch(s.cache, log, i);
    } else {
      CacheRefinesByPut(s.cache, log, EntryAt(s, i).value, log);
    }
  }

  // ----- What a read returns -----

  /** The part of an entry that survives a reload. */
  datatype Item = Item(index: nat, data: Bytes)

  function Items(es: seq<Entry>): seq<Item> {
    seq(|es|, k requires 0 <= k < |es| => Item(es[k].index, es[k].data))
  }

  /** The logged indexes from `low` up to `high`, in order, with their payloads. */
  function LogItems(log: Log, low: nat, high: nat): seq<Item>
    decreases high - low
  {
    if low >= high then []
    else (if low in log then [Item(low, log[low].data)] else []) + LogItems(log, low + 1, high)
  }

  function Size(items: seq<Item>): nat {
    if items == [] then 0 else Size(items[..|items| - 1]) + |items[|items| - 1].data|
  }

  /** A prefix the limit allows: one item always is. */
  predicate Allowed(items: seq<Item>, limit: Option<nat>) {
    limit.None? || |items| <= 1 || Size(items) <= limit.value
  }

  /** The longest prefix of `items` that the limit allows. */
  ghost predicate LongestAllowed(items: seq<Item>, limit: Option<nat>, got: seq<Item>) {
    got <= items && Allowed(got, limit) &&
    forall k | |got| < k <= |items| :: !Allowed(items[..k], limit)
  }

  lemma {:induction false} SizeGrows(items: seq<Item>, j: nat, k: nat)
    requires j <= k <= |items|
    ensures Size(items[..j]) <= Size(items[..k])
  {
    if j < k {
      SizeGrows(items, j, k - 1);
      assert items[..k][..k - 1] == items[..k - 1];
    }
  }

  lemma Stuck(all: seq<Item>, limit: Option<nat>, n: nat)
    requires 1 <= n < |all| && limit.Some? && Size(all[..n + 1]) > limit.value
    requires Allowed(all[..n], limit)
    ensures LongestAllowed(all, limit, all[..n])
  {
    forall k | n < k <= |all|
      ensures !Allowed(all[..k], limit)
    {
      SizeGrows(all, n + 1, k);
    }
  }

  /** The prefix rule of the read loop on its own, having taken items of size
      `total` (some, or none yet). */
  function Take(items: seq<Item>, limit: Option<nat>, some: bool, total: nat): seq<Item> {
    if items == [] || (limit.Some? && some && total + |items[0].data| > limit.value) then []
    else [items[0]] + Take(items[1..], limit, true, total + |items[0].data|)
  }

  lemma SizeSnoc(all: seq<Item>, n: nat)
    requires n < |all|
    ensures all[..n + 1] == all[..n] + [all[n]]
    ensures Size(all[..n + 1]) == Size(all[..n]) + |all[n].data|
  {
    assert all[..n + 1][..n] == all[..n];
  }

  lemma {:induction false} TakeIsLongest(all: seq<Item>, limit: Option<nat>, n: nat)
    requires n <= |all| && Allowed(all[..n], limit)
    ensures LongestAllowed(all, limit, all[..n] + Take(all[n..], limit, n > 0, Size(all[..n])))
    decreases |all| - n
  {
    var rest, total := all[n..], Size(all[..n]);
    if n == |all| {
      assert all[..n] == all && all[..n] + [] == all[..n];
    } else {
      SizeSnoc(all, n);
      if limit.Some? && n > 0 && total + |all[n].data| > limit.value {
        Stuck(all, limit, n);
        assert all[..n] + [] == all[..n];
      } else {
        TakeIsLongest(all, limit, n + 1);
        TakeOnce(all, limit, n);
      }
    }
  }

  lemma TakeOnce(all: seq<Item>, limit: Option<nat>, n: nat)
    requires n < |all| && !OverLimit(limit, n > 0, Size(all[..n]), |all[n].data|)
    ensures all[..n] + Take(all[n..], limit, n > 0, Size(all[..n]))
         == all[..n + 1] + Take(all[n + 1..], limit, true, Size(all[..n + 1]))
  {
    SizeSnoc(all, n);
    assert all[n..][0] == all[n] && all[n..][1..] == all[n + 1..];
    var more := Take(all[n + 1..], limit, true, Size(all[..n + 1]));
    assert Take(all[n..], limit, n > 0, Size(all[..n])) == [all[n]] + more;
    assert all[..n] + ([all[n]] + more) == all[..n] + [all[n]] + more;
  }

  /** One turn of the read loop, when it hands an entry out. */
  lemma ReadOnMore(s: Storage, low: nat, high: nat, limit: Option<nat>, some: bool, total: nat, e: Entry)
    requires low < high && EntryAt(s, low) == Some(e) && !OverLimit(limit, some, total, |e.data|)
    ensures
      var (s', more) := ReadOn(HandedOut(s, low, e), low + 1, high, limit, true, total + |e.data|);
      ReadOn(s, low, high, limit, some, total) == (s', [e] + more)
  {
  }

  /** A turn of the read loop that finds nothing, or is the last. */
  lemma ReadOnLess(s: Storage, low: nat, high: nat, limit: Option<nat>, some: bool, total: nat)
    requires low < high
    ensures EntryAt(s, low).None? ==>
              ReadOn(s, low, high, limit, some, total) == ReadOn(s, low + 1, high, limit, some, total)
    ensures EntryAt(s, low).Some? && OverLimit(limit, some, total, |EntryAt(s, low).value.data|) ==>
              ReadOn(s, low, high, limit, some, total) == (LookedUp(s, low), [])
  {
  }

  ghost predicate Readable(s: Storage, log: Log) {
    IndexRefines(s.files, s.hashes, log) && CacheRefines(s.cache, log)
  }

  /** What the loop may rely on when it looks at index `low`. */
  lemma ReadableStep(s: Storage, log: Log, low: nat)
    requires Readable(s, log)
    ensures EntryAt(s, low).Some? <==> low in log
    ensures CacheRefines(LookedUp(s, low).cache, log)
    ensures low in log ==>
              var e := EntryAt(s, low).value;
              Item(e.index, e.data) == Item(low, log[low].data) && Readable(HandedOut(s, low, e), log)
  {
    EntryAtIsLogged(s, log, low);
    CacheRefinesByTouch(s.cache, log, low);
    if low in log {
      CacheRefinesByHandOut(s, log, low);
    }
  }

  ghost predicate ReadsRight(s: Storage, log: Log, low: nat, high: nat, limit: Option<nat>, some: bool, total: nat) {
    var (s', got) := ReadOn(s, low, high, limit, some, total);
    CacheRefines(s'.cache, log) && Items(got) == Take(LogItems(log, low, high), limit, some, total)
  }

  lemma {:induction false} ReadOnTakes(s: Storage, log: Log, low: nat, high: nat, limit: Option<nat>,
                                       some: bool, total: nat)
    requires Readable(s, log)
    ensures ReadsRight(s, log, low, high, limit, some, total)
    decreases high - low
  {
    if low < high {
      ReadableStep(s, log, low);
      match EntryAt(s, low)
      case None =>
        ReadOnTakes(s, log, low + 1, high, limit, some, total);
        ReadsRightSkipping(s, log, low, high, limit, some, total);
      case Some(e) =>
        if OverLimit(limit, some, total, |e.data|) {
          ReadsRightStopping(s, log, low, high, limit, some, total);
        } else {
          ReadOnTakes(HandedOut(s, low, e), log, low + 1, high, limit, true, total + |e.data|);
          ReadsRightHanding(s, log, low, high, limit, some, total, e);
        }
    }
  }

  lemma ReadsRightSkipping(s: Storage, log: Log, low: nat, high: nat, limit: Option<nat>, some: bool, total: nat)
    requires low < high && EntryAt(s, low).None? && low !in log
    requires ReadsRight(s, log, low + 1, high, limit, some, total)
    ensures ReadsRight(s, log, low, high, limit, some, total)
  {
    ReadOnLess(s, low, high, limit, some, total);
    LogItemsStep(log, low, high);
  }

  lemma ReadsRightStopping(s: Storage, log: Log, low: nat, high: nat, limit: Option<nat>, some: bool, total: nat)
    requires low < high && EntryAt(s, low).Some? && low in log && EntryAt(s, low).value.data == log[low].data
    requires OverLimit(limit, some, total, |log[low].data|) && CacheRefines(LookedUp(s, low).cache, log)
    ensures ReadsRight(s, log, low, high, limit, some, total)
  {
    ReadOnLess(s, low, high, limit, some, total);
    LogItemsStep(log, low, high);
  }

  lemma ReadsRightHanding(s: Storage, log: Log, low: nat, high: nat, limit: Option<nat>,
                          some: bool, total: nat, e: Entry)
    requires low < high && EntryAt(s, low) == Some(e) && low in log && Item(e.index, e.data) == Item(low, log[low].data)
    requires !OverLimit(limit, some, total, |e.data|)
    requires ReadsRight(HandedOut(s, low, e), log, low + 1, high, limit, true, total + |e.data|)
    ensures ReadsRight(s, log, low, high, limit, some, total)
  {
    ReadOnMore(s, low, high, limit, some, total, e);
    LogItemsStep(log, low, high);
    var more := ReadOn(HandedOut(s, low, e), low + 1, high, limit, true, total + |e.data|).1;
    TakeOne(e, more, LogItems(log, low + 1, high), limit, some, total);
  }

  lemma LogItemsStep(log: Log, low: nat, high: nat)
    requires low < high
    ensures low in log ==> LogItems(log, low, high) == [Item(low, log[low].data)] + LogItems(log, low + 1, high)
    ensures low !in log ==> LogItems(log, low, high) == LogItems(log, low + 1, high)
  {
    assert [] + LogItems(log, low + 1, high) == LogItems(log, low + 1, high);
  }

  lemma TakeOne(e: Entry, more: seq<Entry>, rest: seq<Item>, limit: Option<nat>, some: bool, total: nat)
    requires !OverLimit(limit, some, total, |e.data|)
    requires Items(more) == Take(rest, limit, true, total + |e.data|)
    ensures Items([e] + more) == Take([Item(e.index, e.data)] + rest, limit, some, total)
  {
    assert ([Item(e.index, e.data)] + rest)[1..] == rest;
    assert Items([e] + more) == [Item(e.index, e.data)] + Items(more);
  }

  lemma ReadIsLongest(s: Storage, log: Log, low: nat, high: nat, limit: Option<nat>)
    requires Refines(s, log)
    ensures Refines(Entries(s, low, high, limit).0, log)
    ensures LongestAllowed(LogItems(log, low, high), limit, Items(Entries(s, low, high, limit).1))
  {
    var all := LogItems(log, low, high);
    ReadKeepsBounds(s, low, high, limit, false, 0);
    ReadOnTakes(s, log, low, high, limit, false, 0);
    TakeIsLongest(all, limit, 0);
    assert all[..0] == [] && all[0..] == all;
    assert [] + Take(all, limit, false, 0) == Take(all, limit, false, 0);
  }

  /** After any run of appends, overwrites, compactions and reads that leaves every
      logged payload in its slot, whatever the cache evicted on the way, a read returns, in order, the longest prefix that
      the size limit allows of the entries ever appended between its bounds, each
      with the payload last appended at its index. */
  lemma ReadsRefineTheLog(codec: Codec, files: Files, ops: seq<Op>, low: nat, high: nat, limit: Option<nat>)
    requires AllBacked(codec, Run(codec, NewStorage(files), ops).files, LogOf(codec, NewStorage(files), map[], ops))
    requires high <= Run(codec, NewStorage(files), ops).last + 1
    ensures
      var log := LogOf(codec, NewStorage(files), map[], ops);
      var got := Entries(Run(codec, NewStorage(files), ops), low, high, limit).1;
      LongestAllowed(LogItems(log, low, high), limit, Items(got))
  {
    var s, log := Run(codec, NewStorage(files), ops), LogOf(codec, NewStorage(files), map[], ops);
    RefinesIffBacked(codec, files, ops);
    ReadIsLongest(s, log, low, high, limit);
  }

  lemma LongestAllowedIsUnique(items: seq<Item>, limit: Option<nat>, a: seq<Item>, b: seq<Item>)
    requires LongestAllowed(items, limit, a) && LongestAllowed(items, limit, b)
    ensures a == b
  {
    assert a == items[..|a|] && b == items[..|b|];
    assert |a| == |b|;
  }

  /** What a read returns does not depend on what happens to be cached. */
  lemma ReadsIgnoreTheCache(s: Storage, t: Storage, log: Log, low: nat, high: nat, limit: Option<nat>)
    requires Refines(s, log) && Refines(t, log)
    ensures Items(Entries(s, low, high, limit).1) == Items(Entries(t, low, high, limit).1)
  {
    var all := LogItems(log, low, high);
    ReadIsLongest(s, log, low, high, limit);
    ReadIsLongest(t, log, low, high, limit);
    LongestAllowedIsUnique(all, limit, Items(Entries(s, low, high, limit).1), Items(Entries(t, low, high, limit).1));
  }

  // ----- Gap-free logs -----

  /** Appends extend the log by one or overwrite. */
  predicate GapFree(codec: Codec, s: Storage, ops: seq<Op>)
    decreases |ops|
  {
    ops == [] ||
    ((ops[0].AppendOp? && AppendSucceeds(codec, s, ops[0].entry, ops[0].io) ==> 1 <= ops[0].entry.index <= s.last + 1)
     && GapFree(codec, Apply(codec, s, ops[0]), ops[1..]))
  }

  lemma {:induction false} ReadKeepsBounds(s: Storage, low: nat, high: nat, limit: Option<nat>, some: bool, total: nat)
    ensures
      var s' := ReadOn(s, low, high, limit, some, total).0;
      s'.first == s.first && s'.last == s.last && s'.files == s.files && s'.hashes == s.hashes
    decreases high - low
  {
    if low < high {
      match EntryAt(s, low)
      case None => ReadKeepsBounds(s, low + 1, high, limit, some, total);
      case Some(e) =>
        if !OverLimit(limit, some, total, |e.data|) {
          ReadKeepsBounds(HandedOut(s, low, e), low + 1, high, limit, true, total + |e.data|);
        }
    }
  }

  lemma {:induction false} GapFreeLogIsFull(codec: Codec, s: Storage, log: Log, ops: seq<Op>)
    requires GapFree(codec, s, ops)
    requires forall i | 1 <= i <= s.last :: i in log
    ensures forall i | 1 <= i <= Run(codec, s, ops).last :: i in LogOf(codec, s, log, ops)
    decreases |ops|
  {
    if ops != [] {
      if ops[0].EntriesOp? {
        ReadKeepsBounds(s, ops[0].low, ops[0].high, ops[0].limit, false, 0);
      }
      GapFreeLogIsFull(codec, Apply(codec, s, ops[0]), Logged(codec, s, log, ops[0]), ops[1..]);
    }
  }

  lemma {:induction false} FullRange(log: Log, low: nat, high: nat)
    requires low <= high && forall i | low <= i < high :: i in log
    ensures |LogItems(log, low, high)| == high - low
    ensures forall k | 0 <= k < high - low :: LogItems(log, low, high)[k] == Item(low + k, log[low + k].data)
    decreases high - low
  {
    if low < high {
      FullRange(log, low + 1, high);
      LogItemsStep(log, low, high);
      var rest := LogItems(log, low + 1, high);
      forall k | 0 < k < high - low
        ensures LogItems(log, low, high)[k] == Item(low + k, log[low + k].data)
      {
        assert LogItems(log, low, high)[k] == rest[k - 1];
        assert low + 1 + (k - 1) == low + k;
      }
    }
  }

  /** With gap-free appends, an unlimited read returns exactly the indexes asked
      for, each with the payload last appended there; a limited one is non-empty
      whenever the range is. */
  lemma GapFreeReadsAreComplete(codec: Codec, files: Files, ops: seq<Op>, low: nat, high: nat, limit: Option<nat>)
    requires AllBacked(codec, Run(codec, NewStorage(files), ops).files, LogOf(codec, NewStorage(files), map[], ops))
    requires GapFree(codec, NewStorage(files), ops)
    requires 1 <= low <= high <= Run(codec, NewStorage(files), ops).last + 1
    ensures
      var log := LogOf(codec, NewStorage(files), map[], ops);
      var got := Entries(Run(codec, NewStorage(files), ops), low, high, limit).1;
      && (low < high ==> got != []) && |got| <= high - low
      && (limit.None? ==> |got| == high - low)
      && (forall k | 0 <= k < |got| :: low + k in log && got[k].index == low + k && got[k].data == log[low + k].data)
  {
    var log := LogOf(codec, NewStorage(files), map[], ops);
    var got := Entries(Run(codec, NewStorage(files), ops), low, high, limit).1;
    var all := LogItems(log, low, high);
    ReadsRefineTheLog(codec, files, ops, low, high, limit);
    GapFreeLogIsFull(codec, NewStorage(files), map[], ops);
    FullRange(log, low, high);
    assert all[..|all|] == all;
    assert low < high ==> Allowed(all[..1], limit);
    forall k | 0 <= k < |got|
      ensures low + k in log && got[k].index == low + k && got[k].data == log[low + k].data
    {
      assert Items(got)[k] == all[k];
    }
  }

  // ----- Snapshots -----

  /** The payloads last appended from index 1 up to `n`, one line each. */
  function LogText(log: Log, n: nat): Bytes {
    if n == 0 then [] else LogText(log, n - 1) + if n in log then log[n].data + [NEWLINE] else []
  }

  /** Everything up to `n` that was logged can be read back. */
  ghost predicate ReadableUpTo(s: Storage, log: Log, n: nat) {
    forall i | 1 <= i <= n && i in log :: Indexed(s.files, s.hashes, log, i)
  }

  /** What the slots serve is what was logged, or nothing. */
  ghost predicate RightOrMissing(s: Storage, log: Log) {
    && (forall i | i in log :: log[i].index == i
          && (StoredData(s.files, s.hashes, i).None? || StoredData(s.files, s.hashes, i) == Some(log[i].data)))
    && (forall i | 0 <= i < |s.hashes| && s.hashes[i].Some? :: i in log)
  }

  lemma {:induction false} SnapshotUpTo(s: Storage, log: Log, n: nat)
    requires RightOrMissing(s, log)
    ensures |SnapshotData(s, n)| <= |LogText(log, n)|
    ensures |SnapshotData(s, n)| == |LogText(log, n)| ==> ReadableUpTo(s, log, n)
    ensures ReadableUpTo(s, log, n) ==> SnapshotData(s, n) == LogText(log, n)
  {
    if n > 0 {
      SnapshotUpTo(s, log, n - 1);
      assert n !in log ==> StoredData(s.files, s.hashes, n).None?;
      if ReadableUpTo(s, log, n) {
        assert ReadableUpTo(s, log, n - 1);
        assert n in log ==> Indexed(s.files, s.hashes, log, n);
      }
    }
  }

  /** No other content under the key of a logged payload shares its pre-image. */
  ghost predicate NoCollisions(codec: Codec, files: Files, log: Log) {
    forall i | i in log :: NoCollision(codec, files, BlobObject(log[i].data))
  }

  lemma SoundIsRightOrMissing(codec: Codec, s: Storage, log: Log)
    requires Sound(codec, s, log) && NoCollisions(codec, s.files, log) && WellKeyed(codec, s.files)
    ensures RightOrMissing(s, log)
    ensures forall i | i in log :: Indexed(s.files, s.hashes, log, i) <==> Backed(codec, s.files, log[i].data)
  {
    forall i | i in log
      ensures log[i].index == i
      ensures StoredData(s.files, s.hashes, i).None? || StoredData(s.files, s.hashes, i) == Some(log[i].data)
      ensures Indexed(s.files, s.hashes, log, i) <==> Backed(codec, s.files, log[i].data)
    {
      assert Pointed(codec, s, log, i);
      var key := BlobKey(codec, log[i].data);
      if s.files[key].Whole? {
        SamePreimage(codec, s.files[key].obj, BlobObject(log[i].data));
      }
    }
  }

  lemma {:induction false} WellKeyedFrom(codec: Codec, s: Storage, ops: seq<Op>)
    requires WellKeyed(codec, s.files)
    ensures WellKeyed(codec, Run(codec, s, ops).files)
    decreases |ops|
  {
    if ops != [] {
      if ops[0].EntriesOp? {
        ReadKeepsBounds(s, ops[0].low, ops[0].high, ops[0].limit, false, 0);
      }
      WellKeyedFrom(codec, Apply(codec, s, ops[0]), ops[1..]);
    }
  }

  /** After any run a snapshot is the text of the whole log, compacted entries
      included and whatever is cached, if and only if every payload logged from
      index 1 on is in its slot; otherwise it is shorter. */
  lemma SnapshotIsTheWholeLogIff(codec: Codec, files: Files, ops: seq<Op>)
    requires WellKeyed(codec, files)
    requires NoCollisions(codec, Run(codec, NewStorage(files), ops).files, LogOf(codec, NewStorage(files), map[], ops))
    ensures
      var s, log := Run(codec, NewStorage(files), ops), LogOf(codec, NewStorage(files), map[], ops);
      && |SnapshotData(s, s.last)| <= |LogText(log, s.last)|
      && (|SnapshotData(s, s.last)| == |LogText(log, s.last)| ==> SnapshotData(s, s.last) == LogText(log, s.last))
      && (SnapshotData(s, s.last) == LogText(log, s.last) <==>
            forall i | i in log && i >= 1 :: Backed(codec, s.files, log[i].data))
  {
    var s, log := Run(codec, NewStorage(files), ops), LogOf(codec, NewStorage(files), map[], ops);
    SoundFrom(codec, NewStorage(files), map[], ops);
    WellKeyedFrom(codec, NewStorage(files), ops);
    SoundIsRightOrMissing(codec, s, log);
    SnapshotUpTo(s, log, s.last);
    assert forall i | i in log :: Pointed(codec, s, log, i);
  }
}
