/** Where the log begins and ends, over every run: compaction moves its first index
    and forgets what it covers, appends alone move its last. */
module RaftCompaction {
  import opened Prelude
  import opened ObjectFormat
  import opened ObjectStore
  import opened LruCache
  import opened RaftStorage
  import opened RaftLogRefinement

  /** The point of the last compaction in `ops` that succeeded, one being refused
      past the last index. */
  function LastCompacted(codec: Codec, s: Storage, ops: seq<Op>): Option<nat>
    decreases |ops|
  {
    if ops == [] then None
    else
      var later := LastCompacted(codec, Apply(codec, s, ops[0]), ops[1..]);
      if later.None? && ops[0].CompactOp? && ops[0].index <= s.last then Some(ops[0].index) else later
  }

  lemma OnlyCompactionMovesFirst(codec: Codec, s: Storage, op: Op)
    ensures Apply(codec, s, op).first ==
            if op.CompactOp? && op.index <= s.last then op.index + 1 else s.first
  {
    if op.EntriesOp? {
      ReadKeepsBounds(s, op.low, op.high, op.limit, false, 0);
    }
  }

  lemma {:induction false} FirstFollowsFrom(codec: Codec, s: Storage, ops: seq<Op>)
    ensures Run(codec, s, ops).first == match LastCompacted(codec, s, ops) case Some(p) => p + 1 case None => s.first
    decreases |ops|
  {
    if ops != [] {
      OnlyCompactionMovesFirst(codec, s, ops[0]);
      FirstFollowsFrom(codec, Apply(codec, s, ops[0]), ops[1..]);
    }
  }

  /** Over every run the first index is one past the last successful compaction, or
      1 without one, and the term of the index just below it is 0; the terms of all
      indexes below that are unavailable. */
  lemma FirstFollowsCompaction(codec: Codec, files: Files, ops: seq<Op>, i: nat)
    ensures
      var s, point := Run(codec, NewStorage(files), ops), LastCompacted(codec, NewStorage(files), ops);
      var covered := if point.Some? then point.value else 0;
      && s.first == covered + 1
      && (i < covered ==> Term(s, i) == Err(Unavailable))
      && (i == covered ==> Term(s, i) == Ok(0))
  {
    FirstFollowsFrom(codec, NewStorage(files), ops);
  }

  /** A compaction past the last index changes nothing.  One at an index up to it
      leaves the other indexes' cached entries, and no cached entry from 1 to the
      point; last index, hash index and store stay, and below the point no term is
      available. */
  lemma CompactionForgetsExactly(s: Storage, index: nat)
    requires Valid(s.cache, ENTRY_CACHE_SIZE)
    ensures index > s.last ==> Compact(s, index) == s
    ensures index <= s.last ==>
              var s' := Compact(s, index);
              && s'.first == index + 1 && s'.last == s.last && s'.hashes == s.hashes && s'.files == s.files
              && (forall k :: k in s'.cache.entries <==> k in s.cache.entries && !(1 <= k <= index))
              && (forall k | k in s'.cache.entries :: s'.cache.entries[k] == s.cache.entries[k])
              && (forall i: nat | i < index :: Term(s', i) == Err(Unavailable))
              && Term(s', index) == Ok(0)
  {
    PopUpToFacts(s.cache, index);
  }

  /** The last index is the highest one logged, 0 for an empty log. */
  predicate EndsAt(s: Storage, log: Log) {
    (forall i | i in log :: i <= s.last) && (s.last == 0 || s.last in log)
  }

  lemma EndsAtByOp(codec: Codec, s: Storage, log: Log, op: Op)
    requires EndsAt(s, log)
    ensures EndsAt(Apply(codec, s, op), Logged(codec, s, log, op))
  {
    if op.EntriesOp? {
      ReadKeepsBounds(s, op.low, op.high, op.limit, false, 0);
    }
  }

  lemma {:induction false} EndsAtFrom(codec: Codec, s: Storage, log: Log, ops: seq<Op>)
    requires EndsAt(s, log)
    ensures EndsAt(Run(codec, s, ops), LogOf(codec, s, log, ops))
    decreases |ops|
  {
    if ops != [] {
      EndsAtByOp(codec, s, log, ops[0]);
      EndsAtFrom(codec, Apply(codec, s, ops[0]), Logged(codec, s, log, ops[0]), ops[1..]);
    }
  }

  /** Over every run the last index is the highest that was ever logged. */
  lemma LastIsHighestLogged(codec: Codec, files: Files, ops: seq<Op>)
    ensures EndsAt(Run(codec, NewStorage(files), ops), LogOf(codec, NewStorage(files), map[], ops))
  {
    EndsAtFrom(codec, NewStorage(files), map[], ops);
  }

  /** The term read from a payload: its first eight bytes, the first counting least;
      a shorter payload has none. */
  lemma TermInDataIsLittleEndian(data: Bytes)
    ensures |data| < 8 ==> TermInData(data) == Err(Unavailable)
    ensures |data| >= 8 ==>
              TermInData(data) ==
              Ok(data[0] as int + 0x100 * data[1] as int + 0x1_0000 * data[2] as int + 0x100_0000 * data[3] as int
                 + 0x1_0000_0000 * data[4] as int + 0x100_0000_0000 * data[5] as int
                 + 0x1_0000_0000_0000 * data[6] as int + 0x100_0000_0000_0000 * data[7] as int)
  {
    if |data| >= 8 {
      var b := data[..8];
      forall k | 0 <= k < 8
        ensures LittleEndian(b[k..]) == b[k] as int + 256 * LittleEndian(b[k + 1..])
      {
        assert b[k..][1..] == b[k + 1..];
      }
      assert b[8..] == [] && b[0..] == b;
    }
  }

  /** What the term of a live index is: its own while the entry is cached, otherwise
      what its payload happens to say. */
  lemma LiveTerm(codec: Codec, files: Files, ops: seq<Op>, i: nat)
    requires AllBacked(codec, Run(codec, NewStorage(files), ops).files, LogOf(codec, NewStorage(files), map[], ops))
    requires Run(codec, NewStorage(files), ops).first <= i
    ensures
      var s, log := Run(codec, NewStorage(files), ops), LogOf(codec, NewStorage(files), map[], ops);
      && (i in s.cache.entries ==> i in log && Term(s, i) == Ok(s.cache.entries[i].term))
      && (i !in s.cache.entries && i in log ==> Term(s, i) == TermInData(log[i].data))
      && (i !in log ==> Term(s, i) == Err(Unavailable))
  {
    RefinesIffBacked(codec, files, ops);
    var s, log := Run(codec, NewStorage(files), ops), LogOf(codec, NewStorage(files), map[], ops);
    if i in s.cache.entries {
      assert CachedRight(s.cache, log, i);
    } else if i in log {
      assert Indexed(s.files, s.hashes, log, i);
    }
  }
}
