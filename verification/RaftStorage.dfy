/** Raft log storage: entry payloads live in the content-addressed store, an
    in-memory index maps log positions to content hashes, and an LRU cache holds
    recent entries whole.  Reads go to the cache first and fall back to the store,
    which only has the payload: an entry reloaded that way has lost its term. */
module RaftStorage {
  import opened Prelude
  import opened ObjectFormat
  import opened ObjectStore
  import opened LruCache

  const ENTRY_CACHE_SIZE := 1024

  datatype Entry = Entry(index: nat, term: nat, kind: nat, data: Bytes)

  /** What a read rebuilds from a payload: everything else is at its default. */
  function Reloaded(index: nat, data: Bytes): Entry {
    Entry(index, 0, 0, data)
  }

  datatype Storage = Storage(
    files: Files,
    cache: Lru<Entry>,
    hashes: seq<Option<Hash>>,
    first: nat,
    last: nat)

  function NewStorage(files: Files): Storage {
    Storage(files, LruCache.Empty(), [None], 1, 0)
  }

  // ----- Appending and compacting -----

  /** The index, grown with empty slots until it has one for `i`. */
  function Padded(hashes: seq<Option<Hash>>, i: nat): seq<Option<Hash>> {
    if |hashes| > i then hashes else hashes + seq(i + 1 - |hashes|, _ => None)
  }

  predicate AppendSucceeds(codec: Codec, s: Storage, e: Entry, io: WriteOutcome) {
    WriteSucceeds(s.files, BlobKey(codec, e.data), io)
  }

  function Append(codec: Codec, s: Storage, e: Entry, io: WriteOutcome): Storage {
    var files := Put(codec, s.files, BlobObject(e.data), io);
    if !AppendSucceeds(codec, s, e, io) then s.(files := files)
    else
      Storage(files,
              PutIn(s.cache, ENTRY_CACHE_SIZE, e.index, e),
              Padded(s.hashes, e.index)[e.index := Some(BlobKey(codec, e.data))],
              s.first,
              if e.index > s.last then e.index else s.last)
  }

  function PopUpTo(cache: Lru<Entry>, n: nat): Lru<Entry> {
    if n == 0 then cache else Pop(PopUpTo(cache, n - 1), n)
  }

  /** Compaction moves the first index, in either direction, and empties the cache
      up to the compacted point; the hash index is left alone. */
  function Compact(s: Storage, index: nat): Storage {
    if index > s.last then s else s.(first := index + 1, cache := PopUpTo(s.cache, index))
  }

  // ----- Reading -----

  function StoredData(files: Files, hashes: seq<Option<Hash>>, i: nat): Option<Bytes> {
    if i < |hashes| && hashes[i].Some? then
      match GetBlob(files, hashes[i].value)
      case Ok(data) => Some(data)
      case Err(_) => None
    else None
  }

  function EntryAt(s: Storage, i: nat): Option<Entry> {
    if i in s.cache.entries then Some(s.cache.entries[i])
    else match StoredData(s.files, s.hashes, i)
      case Some(data) => Some(Reloaded(i, data))
      case None => None
  }

  /** The first entry is always handed out; `some` says it has been. */
  predicate OverLimit(limit: Option<nat>, some: bool, total: nat, size: nat) {
    limit.Some? && some && total + size > limit.value
  }

  /** The storage after `i` was looked up (the cache lookup counts as a use). */
  function LookedUp(s: Storage, i: nat): Storage {
    s.(cache := Touch(s.cache, i))
  }

  /** The storage after an entry for `i` was handed out. */
  function HandedOut(s: Storage, i: nat, e: Entry): Storage {
    if i in s.cache.entries then LookedUp(s, i)
    else s.(cache := PutIn(s.cache, ENTRY_CACHE_SIZE, i, e))
  }

  /** The read loop from `low` on, having handed out `total` bytes: the storage it
      leaves and the entries it still collects. */
  function ReadOn(s: Storage, low: nat, high: nat, limit: Option<nat>, some: bool, total: nat): (Storage, seq<Entry>)
    decreases high - low
  {
    if low >= high then (s, [])
    else match EntryAt(s, low)
      case None => ReadOn(s, low + 1, high, limit, some, total)
      case Some(e) =>
        if OverLimit(limit, some, total, |e.data|) then (LookedUp(s, low), [])
        else
          var (s', more) := ReadOn(HandedOut(s, low, e), low + 1, high, limit, true, total + |e.data|);
          (s', [e] + more)
  }

  function Entries(s: Storage, low: nat, high: nat, limit: Option<nat>): (Storage, seq<Entry>) {
    ReadOn(s, low, high, limit, false, 0)
  }

  function LittleEndian(b: Bytes): nat {
    if b == [] then 0 else b[0] + 256 * LittleEndian(b[1..])
  }

  datatype TermError = Unavailable

  /** The term a payload seems to carry: its first eight bytes. */
  function TermInData(data: Bytes): Result<nat, TermError> {
    if |data| >= 8 then Ok(LittleEndian(data[..8])) else Err(Unavailable)
  }

  function Term(s: Storage, i: nat): Result<nat, TermError> {
    if i + 1 < s.first then Err(Unavailable)
    else if i + 1 == s.first then Ok(0)
    else if i in s.cache.entries then Ok(s.cache.entries[i].term)
    else match StoredData(s.files, s.hashes, i)
      case Some(data) => TermInData(data)
      case None => Err(Unavailable)
  }

  function AfterTerm(s: Storage, i: nat): Storage {
    if i < s.first then s else LookedUp(s, i)
  }

  /** Every stored payload up to `n`, each followed by a newline. */
  function SnapshotData(s: Storage, n: nat): Bytes {
    if n == 0 then []
    else SnapshotData(s, n - 1) + match StoredData(s.files, s.hashes, n) case Some(data) => data + [NEWLINE] case None => []
  }

  datatype SnapshotError = TemporarilyUnavailable

  /** `index` and `term` are the metadata; the term is a constant. */
  datatype RaftSnapshot = RaftSnapshot(data: Bytes, index: nat, term: nat)

  class CasRaftStorage {
    const store: LocalObjectStore
    var cache: Lru<Entry>
    var hashes: seq<Option<Hash>>
    var first: nat
    var last: nat

    ghost function View(): Storage
      reads this, store
    {
      Storage(store.files, cache, hashes, first, last)
    }

    constructor (store: LocalObjectStore)
      ensures this.store == store && View() == NewStorage(store.files)
    {
      this.store := store;
      cache, hashes, first, last := LruCache.Empty(), [None], 1, 0;
    }

    method AppendEntry(e: Entry, io: WriteOutcome) returns (ok: bool)
      modifies this, store
      ensures View() == Append(store.codec, old(View()), e, io)
      ensures ok == AppendSucceeds(store.codec, old(View()), e, io)
      ensures !ok ==> cache == old(cache) && hashes == old(hashes) && first == old(first) && last == old(last)
      ensures ok ==>
                && e.index in cache.entries && cache.entries[e.index] == e
                && e.index < |hashes| && hashes[e.index] == Some(BlobKey(store.codec, e.data))
                && first == old(first) && old(last) <= last && e.index <= last && last in {old(last), e.index}
    {
      var stored := store.PutBlob(e.data, io);
      if stored.Err? {
        return false;
      }
      while |hashes| <= e.index
        invariant |old(hashes)| <= |hashes|
        invariant |hashes| > |old(hashes)| ==> |hashes| <= e.index + 1
        invariant cache == old(cache) && first == old(first) && last == old(last)
        invariant store.files == Put(store.codec, old(store.files), BlobObject(e.data), io)
        invariant hashes == old(hashes) + seq(|hashes| - |old(hashes)|, _ => None)
      {
        hashes := hashes + [None];
      }
      assert hashes == Padded(old(hashes), e.index);
      hashes := hashes[e.index := Some(stored.value)];
      cache := PutIn(cache, ENTRY_CACHE_SIZE, e.index, e);
      if e.index > last {
        last := e.index;
      }
      return true;
    }

    method CompactTo(index: nat) returns (ok: bool)
      modifies this
      ensures View() == Compact(old(View()), index)
      ensures ok <==> index <= old(last)
      ensures last == old(last) && hashes == old(hashes)
      ensures first == if ok then index + 1 else old(first)
      ensures !ok ==> cache == old(cache)
    {
      if index > last {
        return false;
      }
      first := index + 1;
      for i := 1 to index + 1
        invariant cache == PopUpTo(old(cache), i - 1)
        invariant hashes == old(hashes) && last == old(last) && first == index + 1
      {
        cache := Pop(cache, i);
      }
      return true;
    }

    /** Panics past the end of the log, hence the precondition. */
    method ReadEntries(low: nat, high: nat, limit: Option<nat>) returns (got: seq<Entry>)
      requires high <= last + 1
      modifies this`cache
      ensures (View(), got) == Entries(old(View()), low, high, limit)
    {
      got := [];
      var total: nat, i: nat := 0, low;
      while i < high
        invariant ReadOn(View(), i, high, limit, got != [], total).0 == Entries(old(View()), low, high, limit).0
        invariant got + ReadOn(View(), i, high, limit, got != [], total).1 == Entries(old(View()), low, high, limit).1
      {
        var cached := i in cache.entries;
        var e: Entry;
        if cached {
          e := cache.entries[i];
          cache := Touch(cache, i);
        } else {
          var data := PayloadAt(i);
          if data.None? {
            i := i + 1;
            continue;
          }
          e := Reloaded(i, data.value);
        }
        if OverLimit(limit, got != [], total, |e.data|) {
          assert got + [] == got;
          return;
        }
        if !cached {
          cache := PutIn(cache, ENTRY_CACHE_SIZE, i, e);
        }
        ghost var more := ReadOn(View(), i + 1, high, limit, true, total + |e.data|).1;
        assert got + ([e] + more) == got + [e] + more;
        got, total, i := got + [e], total + |e.data|, i + 1;
      }
      assert got + [] == got;
    }

    /** The payload behind an index, if it is tracked and readable. */
    method PayloadAt(i: nat) returns (data: Option<Bytes>)
      ensures data == StoredData(store.files, hashes, i)
    {
      if i < |hashes| && hashes[i].Some? {
        var read := store.GetBlobData(hashes[i].value);
        if read.Ok? {
          return Some(read.value);
        }
      }
      return None;
    }

    method TermAt(i: nat) returns (r: Result<nat, TermError>)
      modifies this`cache
      ensures View() == AfterTerm(old(View()), i)
      ensures r == Term(old(View()), i)
      ensures i + 1 < first ==> r == Err(Unavailable)
      ensures i + 1 == first ==> r == Ok(0)
      ensures i >= first && i in old(cache.entries) ==> r == Ok(old(cache.entries)[i].term)
    {
      if i + 1 < first {
        return Err(Unavailable);
      }
      if i + 1 == first {
        return Ok(0);
      }
      if i in cache.entries {
        var e := cache.entries[i];
        cache := Touch(cache, i);
        return Ok(e.term);
      }
      var data := PayloadAt(i);
      if data.Some? && |data.value| >= 8 {
        return Ok(LittleEndian(data.value[..8]));
      }
      return Err(Unavailable);
    }

    method Snapshot(requestIndex: nat) returns (r: Result<RaftSnapshot, SnapshotError>)
      ensures r == if requestIndex > last then Err(TemporarilyUnavailable)
                   else Ok(RaftSnapshot(SnapshotData(View(), last), last, 1))
    {
      if requestIndex > last {
        return Err(TemporarilyUnavailable);
      }
      var data: Bytes := [];
      for i := 1 to last + 1
        invariant data == SnapshotData(View(), i - 1)
      {
        var payload := PayloadAt(i);
        if payload.Some? {
          data := data + (payload.value + [NEWLINE]);
        }
      }
      return Ok(RaftSnapshot(data, last, 1));
    }
  }
}
