/** Packfiles: a writer that accumulates objects and flushes them as one file with
    an index beside it, and a reader that finds an object by its hash.

    The disk may fail at any point of a flush: the packfile may not be created or be
    cut short, the index may be left as it was or garbled. */
module PackFile {
  import opened Prelude
  import opened ObjectFormat

  datatype PackObject = PackObject(hash: Hash, data: Bytes)

  datatype IndexEntry = IndexEntry(offset: nat, length: nat, hash: Hash)

  type PackIndex = map<Hash, IndexEntry>

  datatype PackError = ObjectNotFound | NoPack | ShortPack | NoIndex | BadIndex

  datatype IndexFile = Missing | Garbled | Listing(entries: seq<IndexEntry>)

  datatype FlushOutcome = Flushed | PackNotCreated | PackCutShort(written: nat) | IndexNotCreated | IndexCutShort

  // ----- What a sequence of appends means -----

  /** The packfile: the objects' data in the order of the appends. */
  function Pack(objs: seq<PackObject>): Bytes {
    if objs == [] then [] else Pack(objs[..|objs| - 1]) + objs[|objs| - 1].data
  }

  function IndexOf(objs: seq<PackObject>): PackIndex {
    if objs == [] then map[]
    else
      var before, last := objs[..|objs| - 1], objs[|objs| - 1];
      IndexOf(before)[last.hash := IndexEntry(|Pack(before)|, |last.data|, last.hash)]
  }

  /** The data last appended under `h`. */
  function LastUnder(objs: seq<PackObject>, h: Hash): Option<Bytes> {
    if objs == [] then None
    else
      var last := objs[|objs| - 1];
      if last.hash == h then Some(last.data) else LastUnder(objs[..|objs| - 1], h)
  }

  /** A read: seek to the entry's offset, then read exactly its length.  Seeking past
      the end is no error, and neither is reading nothing there. */
  function Fetch(pack: Option<Bytes>, index: PackIndex, h: Hash): Result<Bytes, PackError> {
    if h !in index then Err(ObjectNotFound)
    else if pack.None? then Err(NoPack)
    else
      var e := index[h];
      if e.length == 0 then Ok([])
      else if e.offset + e.length <= |pack.value| then Ok(pack.value[e.offset..e.offset + e.length])
      else Err(ShortPack)
  }

  /** `entries` lists the index, each entry once, in any order. */
  ghost predicate Lists(entries: seq<IndexEntry>, index: PackIndex) {
    && (forall k | 0 <= k < |entries| :: entries[k].hash in index && index[entries[k].hash] == entries[k])
    && (forall h | h in index :: index[h] in entries)
    && (forall j, k | 0 <= j < k < |entries| :: entries[j].hash != entries[k].hash)
  }

  ghost predicate KeyedByHash(index: PackIndex) {
    forall h | h in index :: index[h].hash == h
  }

  lemma {:induction false} IndexIsKeyedByHash(objs: seq<PackObject>)
    ensures KeyedByHash(IndexOf(objs))
  {
    if objs != [] {
      IndexIsKeyedByHash(objs[..|objs| - 1]);
    }
  }

  // ----- The two files, the writer and the reader -----

  class PackFiles {
    var pack: Option<Bytes>
    var index: IndexFile

    constructor ()
      ensures pack == None && index == Missing
    {
      pack, index := None, Missing;
    }
  }

  class PackWriter {
    var objects: seq<PackObject>
    var index: PackIndex
    var offset: nat

    ghost predicate Valid()
      reads this
    {
      index == IndexOf(objects) && offset == |Pack(objects)|
    }

    constructor ()
      ensures Valid() && objects == []
    {
      objects, index, offset := [], map[], 0;
    }

    method Append(hash: Hash, data: Bytes)
      requires Valid()
      modifies this
      ensures Valid()
      ensures objects == old(objects) + [PackObject(hash, data)]
    {
      index := index[hash := IndexEntry(offset, |data|, hash)];
      objects := objects + [PackObject(hash, data)];
      offset := offset + |data|;
      assert objects[..|objects| - 1] == old(objects);
    }

    /** Writes the data of the objects one after the other; the disk takes no more
        than `room` bytes if there is a limit. */
    method WritePack(files: PackFiles, room: Option<nat>) returns (ok: bool)
      requires Valid()
      modifies files`pack
      ensures ok <==> room.None?
      ensures files.pack == Some(
        if room.Some? && room.value <= |Pack(objects)| then Pack(objects)[..room.value] else Pack(objects))
    {
      var written: Bytes := [];
      var i := 0;
      while i < |objects|
        invariant 0 <= i <= |objects|
        invariant written == Pack(objects[..i])
        invariant room.Some? ==> |written| <= room.value
      {
        var data := objects[i].data;
        assert objects[..i + 1][..i] == objects[..i];
        if room.Some? && |written| + |data| > room.value {
          PackExtends(objects, i + 1);
          PrefixIsPrefix(Pack(objects[..i + 1]), Pack(objects), room.value);
          files.pack := Some((written + data)[..room.value]);
          return false;
        }
        written := written + data;
        i := i + 1;
      }
      assert objects[..|objects|] == objects;
      assert written[..|written|] == written;
      files.pack := Some(written);
      return room.None?;
    }

    method Flush(files: PackFiles, io: FlushOutcome) returns (ok: bool)
      requires Valid()
      modifies files
      ensures ok <==> io.Flushed?
      ensures io.PackNotCreated? ==> files.pack == old(files.pack)
      ensures io.PackCutShort? ==>
                files.pack == Some(
                  if io.written <= |Pack(objects)| then Pack(objects)[..io.written] else Pack(objects))
      ensures !io.PackNotCreated? && !io.PackCutShort? ==> files.pack == Some(Pack(objects))
      ensures io.Flushed? ==> files.index.Listing? && Lists(files.index.entries, IndexOf(objects))
      ensures io.IndexCutShort? ==> files.index == Garbled
      ensures !io.Flushed? && !io.IndexCutShort? ==> files.index == old(files.index)
    {
      if io.PackNotCreated? {
        return false;
      }
      var whole := WritePack(files, if io.PackCutShort? then Some(io.written) else None);
      if !whole {
        return false;
      }
      var entries := ListIndex();
      match io {
        case Flushed => files.index := Listing(entries);
        case IndexCutShort => files.index := Garbled;
        case IndexNotCreated =>
      }
      return io.Flushed?;
    }

    /** Lists the index in whatever order the hash map yields it. */
    method ListIndex() returns (entries: seq<IndexEntry>)
      requires Valid()
      ensures Lists(entries, IndexOf(objects))
    {
      IndexIsKeyedByHash(objects);
      entries := [];
      var left := index.Keys;
      while left != {}
        invariant left <= index.Keys
        invariant forall k | 0 <= k < |entries| ::
            entries[k].hash in index && entries[k].hash !in left && index[entries[k].hash] == entries[k]
        invariant forall h | h in index && h !in left :: index[h] in entries
        invariant forall j, k | 0 <= j < k < |entries| :: entries[j].hash != entries[k].hash
        decreases |left|
      {
        var h :| h in left;
        entries := entries + [index[h]];
        left := left - {h};
      }
    }
  }

  class PackReader {
    const files: PackFiles
    const index: PackIndex

    constructor (files: PackFiles, index: PackIndex)
      ensures this.files == files && this.index == index
    {
      this.files, this.index := files, index;
    }

    static method Open(files: PackFiles) returns (r: Result<PackReader, PackError>)
      ensures files.index.Missing? <==> r == Err(NoIndex)
      ensures files.index.Garbled? <==> r == Err(BadIndex)
      ensures r.Ok? <==> files.index.Listing?
      ensures r.Ok? ==> r.value.files == files && r.value.index == Rebuilt(files.index.entries)
    {
      match files.index {
        case Missing => return Err(NoIndex);
        case Garbled => return Err(BadIndex);
        case Listing(entries) =>
          var index: PackIndex := map[];
          var i := 0;
          while i < |entries|
            invariant 0 <= i <= |entries|
            invariant index == Rebuilt(entries[..i])
          {
            index := index[entries[i].hash := entries[i]];
            i := i + 1;
            assert entries[..i][..i - 1] == entries[..i - 1];
          }
          assert entries[..|entries|] == entries;
          var reader := new PackReader(files, index);
          return Ok(reader);
      }
    }

    /** The packfile is opened anew for every read. */
    method Read(h: Hash) returns (r: Result<Bytes, PackError>)
      ensures r == Fetch(files.pack, index, h)
      ensures h !in index <==> r == Err(ObjectNotFound)
      ensures h in index && files.pack.None? ==> r == Err(NoPack)
    {
      if h !in index {
        return Err(ObjectNotFound);
      }
      var entry := index[h];
      if files.pack.None? {
        return Err(NoPack);
      }
      var pack := files.pack.value;
      if entry.length == 0 {
        return Ok([]);
      }
      if entry.offset + entry.length > |pack| {
        return Err(ShortPack);
      }
      return Ok(pack[entry.offset..entry.offset + entry.length]);
    }

    method Exists(h: Hash) returns (found: bool)
      ensures found <==> Fetch(files.pack, index, h) != Err(ObjectNotFound)
    {
      found := h in index;
    }
  }

  /** The index a reader builds from the listed entries. */
  function Rebuilt(entries: seq<IndexEntry>): PackIndex {
    if entries == [] then map[]
    else
      var last := entries[|entries| - 1];
      Rebuilt(entries[..|entries| - 1])[last.hash := last]
  }

  // ----- Offsets -----

  /** More appends leave the data written so far where it is. */
  lemma {:induction false} PackExtends(objs: seq<PackObject>, k: nat)
    requires k <= |objs|
    ensures Pack(objs[..k]) <= Pack(objs)
    decreases |objs|
  {
    if k == |objs| {
      assert objs[..k] == objs;
    } else {
      assert objs[..|objs| - 1][..k] == objs[..k];
      PackExtends(objs[..|objs| - 1], k);
    }
  }

  lemma PrefixIsPrefix(a: Bytes, b: Bytes, n: nat)
    requires a <= b && n <= |a|
    ensures a[..n] == b[..n]
  {
  }

  function OffsetAt(objs: seq<PackObject>, k: nat): nat
    requires k <= |objs|
  {
    |Pack(objs[..k])|
  }

  /** The objects tile the packfile: the first starts at its beginning, each next one
      where the previous ends, the last ends at its end, and each finds its own
      data there. */
  lemma ObjectsTileThePack(objs: seq<PackObject>, k: nat)
    requires k < |objs|
    ensures OffsetAt(objs, 0) == 0 && OffsetAt(objs, |objs|) == |Pack(objs)|
    ensures OffsetAt(objs, k + 1) == OffsetAt(objs, k) + |objs[k].data| <= |Pack(objs)|
    ensures Pack(objs)[OffsetAt(objs, k)..OffsetAt(objs, k + 1)] == objs[k].data
  {
    assert objs[..|objs|] == objs;
    assert objs[..k + 1][..k] == objs[..k];
    PackExtends(objs, k + 1);
    assert Pack(objs[..k + 1]) == Pack(objs[..k]) + objs[k].data;
  }

  /** Position of the last append under `h`. */
  lemma {:induction false} IndexPointsAtLast(objs: seq<PackObject>, h: Hash) returns (k: nat)
    requires h in IndexOf(objs)
    ensures k < |objs| && objs[k].hash == h
    ensures forall j | k < j < |objs| :: objs[j].hash != h
    ensures LastUnder(objs, h) == Some(objs[k].data)
    ensures IndexOf(objs)[h] == IndexEntry(OffsetAt(objs, k), |objs[k].data|, h)
    decreases |objs|
  {
    var n := |objs| - 1;
    if objs[n].hash == h {
      k := n;
    } else {
      k := IndexPointsAtLast(objs[..n], h);
      assert objs[..n][..k] == objs[..k];
    }
  }

  /** The index knows exactly the hashes appended. */
  lemma {:induction false} IndexedIffAppended(objs: seq<PackObject>, h: Hash)
    ensures h in IndexOf(objs) <==> exists k | 0 <= k < |objs| :: objs[k].hash == h
    ensures h in IndexOf(objs) <==> LastUnder(objs, h).Some?
    decreases |objs|
  {
    if objs != [] {
      var n := |objs| - 1;
      IndexedIffAppended(objs[..n], h);
      if exists k | 0 <= k < |objs| :: objs[k].hash == h {
        var k :| 0 <= k < |objs| && objs[k].hash == h;
        if k < n {
          assert objs[..n][k].hash == h;
        }
      }
      if h in IndexOf(objs[..n]) {
        var k :| 0 <= k < n && objs[..n][k].hash == h;
        assert objs[k].hash == h;
      }
      assert objs[n].hash == h ==> h in IndexOf(objs);
    }
  }

  // ----- What a reader gets -----

  lemma {:induction false} RebuiltHas(entries: seq<IndexEntry>, e: IndexEntry)
    requires forall j, k | 0 <= j < k < |entries| :: entries[j].hash != entries[k].hash
    requires e in entries
    ensures e.hash in Rebuilt(entries) && Rebuilt(entries)[e.hash] == e
    decreases |entries|
  {
    var n := |entries| - 1;
    if entries[n] != e {
      var k :| 0 <= k < |entries| && entries[k] == e;
      assert entries[..n][k] == e;
      RebuiltHas(entries[..n], e);
    }
  }

  lemma {:induction false} RebuiltOnly(entries: seq<IndexEntry>, h: Hash)
    requires h in Rebuilt(entries)
    ensures exists k | 0 <= k < |entries| :: entries[k].hash == h && entries[k] == Rebuilt(entries)[h]
    decreases |entries|
  {
    var n := |entries| - 1;
    if entries[n].hash != h {
      RebuiltOnly(entries[..n], h);
      var k :| 0 <= k < n && entries[..n][k].hash == h && entries[..n][k] == Rebuilt(entries[..n])[h];
      assert entries[k] == Rebuilt(entries)[h];
    }
  }

  /** Opening a flushed pack gives back the writer's index, in whatever order its
      entries were listed. */
  lemma OpenedIndexIsWriters(objs: seq<PackObject>, entries: seq<IndexEntry>)
    requires Lists(entries, IndexOf(objs))
    ensures Rebuilt(entries) == IndexOf(objs)
  {
    var index := IndexOf(objs);
    IndexIsKeyedByHash(objs);
    forall h | h in index
      ensures h in Rebuilt(entries) && Rebuilt(entries)[h] == index[h]
    {
      RebuiltHas(entries, index[h]);
    }
    forall h | h in Rebuilt(entries)
      ensures h in index
    {
      RebuiltOnly(entries, h);
    }
  }

  /** After any appends, a flush and an open: exactly the appended hashes exist, and
      each reads as the data last appended under it. */
  lemma ReadsReturnTheLastAppend(objs: seq<PackObject>, entries: seq<IndexEntry>, h: Hash)
    requires Lists(entries, IndexOf(objs))
    ensures Fetch(Some(Pack(objs)), Rebuilt(entries), h) ==
            if LastUnder(objs, h).Some? then Ok(LastUnder(objs, h).value) else Err(ObjectNotFound)
    ensures Fetch(Some(Pack(objs)), Rebuilt(entries), h) == Err(ObjectNotFound)
            <==> forall k | 0 <= k < |objs| :: objs[k].hash != h
  {
    OpenedIndexIsWriters(objs, entries);
    IndexedIffAppended(objs, h);
    if h in IndexOf(objs) {
      var k := IndexPointsAtLast(objs, h);
      ObjectsTileThePack(objs, k);
    }
  }

  /** A reader that was opened before further appends, over a pack those appends
      rewrote and cut short anywhere: it serves an object unless the packfile ends
      before it, and then always with the right bytes. */
  lemma StaleReaderIsNeverWrong(objs: seq<PackObject>, later: seq<PackObject>, n: nat, h: Hash)
    requires n <= |Pack(objs + later)| && h in IndexOf(objs)
    ensures
      var entry := IndexOf(objs)[h];
      var r := Fetch(Some(Pack(objs + later)[..n]), IndexOf(objs), h);
      && LastUnder(objs, h).Some?
      && (r == Ok(LastUnder(objs, h).value) <==> entry.length == 0 || entry.offset + entry.length <= n)
      && (r.Ok? || r == Err(ShortPack))
      && (r.Ok? ==> r == Ok(LastUnder(objs, h).value))
  {
    var k := IndexPointsAtLast(objs, h);
    ObjectsTileThePack(objs, k);
    assert (objs + later)[..|objs|] == objs;
    PackExtends(objs + later, |objs|);
    var from, to := OffsetAt(objs, k), OffsetAt(objs, k + 1);
    if to <= n {
      SliceOfPrefix(Pack(objs), Pack(objs + later), n, from, to);
    }
  }

  lemma SliceOfPrefix(a: Bytes, b: Bytes, n: nat, from: nat, to: nat)
    requires a <= b && from <= to <= |a| && to <= n <= |b|
    ensures b[..n][from..to] == a[from..to]
  {
  }

  /** The index is not checked against the packfile: over a pack of the same size that
      another writer put there, a reader serves bytes never appended under the
      hash. */
  lemma ForeignPackServesWrongBytes(h: Hash, other: Hash, mine: Bytes, theirs: Bytes)
    requires |mine| == |theirs| && mine != theirs
    ensures
      var objs := [PackObject(h, mine)];
      && LastUnder(objs, h) == Some(mine)
      && Fetch(Some(Pack([PackObject(other, theirs)])), IndexOf(objs), h) == Ok(theirs)
  {
    var objs := [PackObject(h, mine)];
    assert objs[..0] == [];
    var foreign := [PackObject(other, theirs)];
    assert foreign[..0] == [];
    assert Pack(foreign) == theirs;
    assert theirs[..|theirs|] == theirs;
  }

  /** Without a packfile nothing is served: an indexed hash reports the missing pack,
      any other is unknown. */
  lemma NothingWithoutPack(objs: seq<PackObject>, h: Hash)
    ensures Fetch(None, IndexOf(objs), h) ==
            if exists k | 0 <= k < |objs| :: objs[k].hash == h then Err(NoPack) else Err(ObjectNotFound)
  {
    IndexedIffAppended(objs, h);
  }
}
