/** The on-disk content-addressed store: objects are written once under the hash
    of their pre-image and never overwritten.  A write that fails half-way leaves
    a torn file behind, which later writes take for the finished object. */
module ObjectStore {
  import opened Prelude
  import opened ObjectFormat

  datatype Tag = Tag(commit: Hash, name: Text, note: Option<Text>)

  datatype Object =
    | BlobObject(data: Bytes)
    | TreeObject(entries: seq<TreeEntry>)
    | CommitObject(commit: Commit)
    | TagObject(tag: Tag)

  datatype File = Whole(obj: Object) | Torn

  type Files = map<Hash, File>

  /** The two library functions the keys depend on: the digest of a pre-image in
      hex, and the JSON form of a tag.  Nothing is assumed about either. */
  datatype Codec = Codec(digest: Bytes -> Hash, tagJson: Tag -> Bytes)

  /** How far the file system let a new file get. */
  datatype WriteOutcome = Written | NotCreated | CutShort

  datatype StoreError = WriteFailed | NotFound | Unreadable | WrongKind

  /** The byte string whose digest is the object's key.  A tag is keyed as the
      blob of its JSON. */
  function PreimageOf(codec: Codec, obj: Object): Bytes {
    match obj
    case BlobObject(data) => Preimage(Ascii("blob"), data)
    case TreeObject(entries) => Preimage(Ascii("tree"), TreeContent(entries))
    case CommitObject(commit) => Preimage(Ascii("commit"), CommitContent(commit))
    case TagObject(tag) => Preimage(Ascii("blob"), codec.tagJson(tag))
  }

  function KeyOf(codec: Codec, obj: Object): Hash {
    codec.digest(PreimageOf(codec, obj))
  }

  function WriteTo(files: Files, key: Hash, obj: Object, io: WriteOutcome): Files {
    if key in files then files
    else match io
      case Written => files[key := Whole(obj)]
      case NotCreated => files
      case CutShort => files[key := Torn]
  }

  /** A write reports success when the file was there already. */
  predicate WriteSucceeds(files: Files, key: Hash, io: WriteOutcome) {
    key in files || io.Written?
  }

  function Put(codec: Codec, files: Files, obj: Object, io: WriteOutcome): Files {
    WriteTo(files, KeyOf(codec, obj), obj, io)
  }

  function Read(files: Files, key: Hash): Result<Object, StoreError> {
    if key !in files then Err(NotFound)
    else match files[key]
      case Whole(obj) => Ok(obj)
      case Torn => Err(Unreadable)
  }

  function GetBlob(files: Files, key: Hash): Result<Bytes, StoreError> {
    match Read(files, key)
    case Ok(BlobObject(data)) => Ok(data)
    case Ok(_) => Err(WrongKind)
    case Err(e) => Err(e)
  }

  function GetTree(files: Files, key: Hash): Result<seq<TreeEntry>, StoreError> {
    match Read(files, key)
    case Ok(TreeObject(entries)) => Ok(entries)
    case Ok(_) => Err(WrongKind)
    case Err(e) => Err(e)
  }

  function BlobKey(codec: Codec, data: Bytes): Hash {
    KeyOf(codec, BlobObject(data))
  }

  class LocalObjectStore {
    const codec: Codec
    var files: Files

    /** Opens a root directory with whatever it holds. */
    constructor (codec: Codec, existing: Files)
      ensures this.codec == codec && files == existing
    {
      this.codec := codec;
      files := existing;
    }

    method WriteObject(obj: Object, key: Hash, io: WriteOutcome) returns (ok: bool)
      modifies this`files
      ensures files == WriteTo(old(files), key, obj, io)
      ensures ok == WriteSucceeds(old(files), key, io)
      ensures key in old(files) ==> ok && files == old(files)
      ensures key !in old(files) ==>
                match io
                case Written => ok && files == old(files)[key := Whole(obj)]
                case NotCreated => !ok && files == old(files)
                case CutShort => !ok && files == old(files)[key := Torn]
    {
      if key in files {
        return true;
      }
      match io {
        case Written =>
          files := files[key := Whole(obj)];
          ok := true;
        case NotCreated => ok := false;
        case CutShort =>
          files := files[key := Torn];
          ok := false;
      }
    }

    method ReadObject(key: Hash) returns (r: Result<Object, StoreError>)
      ensures r == Read(files, key)
      ensures r == Err(NotFound) <==> key !in files
      ensures r == Err(Unreadable) <==> key in files && files[key].Torn?
      ensures r.Ok? <==> key in files && files[key].Whole?
      ensures r.Ok? ==> files[key] == Whole(r.value)
    {
      if key !in files {
        return Err(NotFound);
      }
      match files[key] {
        case Whole(obj) => r := Ok(obj);
        case Torn => r := Err(Unreadable);
      }
    }

    method PutBlob(data: Bytes, io: WriteOutcome) returns (r: Result<Hash, StoreError>)
      modifies this`files
      ensures files == Put(codec, old(files), BlobObject(data), io)
      ensures r == if WriteSucceeds(old(files), BlobKey(codec, data), io) then Ok(BlobKey(codec, data)) else Err(WriteFailed)
    {
      var key := BlobKey(codec, data);
      var ok := WriteObject(BlobObject(data), key, io);
      r := if ok then Ok(key) else Err(WriteFailed);
    }

    method GetBlobData(key: Hash) returns (r: Result<Bytes, StoreError>)
      ensures r == GetBlob(files, key)
      ensures r.Ok? <==> key in files && files[key].Whole? && files[key].obj.BlobObject?
      ensures r.Ok? ==> files[key] == Whole(BlobObject(r.value))
      ensures r == Err(WrongKind) <==> key in files && files[key].Whole? && !files[key].obj.BlobObject?
    {
      var obj := ReadObject(key);
      match obj {
        case Ok(BlobObject(data)) => r := Ok(data);
        case Ok(_) => r := Err(WrongKind);
        case Err(e) => r := Err(e);
      }
    }

    method PutTree(entries: seq<TreeEntry>, io: WriteOutcome) returns (r: Result<Hash, StoreError>)
      modifies this`files
      ensures files == Put(codec, old(files), TreeObject(entries), io)
      ensures
        var key := KeyOf(codec, TreeObject(entries));
        r == if WriteSucceeds(old(files), key, io) then Ok(key) else Err(WriteFailed)
    {
      var content := WriteTreeContent(entries);
      var key := codec.digest(Preimage(Ascii("tree"), content));
      var ok := WriteObject(TreeObject(entries), key, io);
      r := if ok then Ok(key) else Err(WriteFailed);
    }

    method GetTreeEntries(key: Hash) returns (r: Result<seq<TreeEntry>, StoreError>)
      ensures r == GetTree(files, key)
      ensures r.Ok? <==> key in files && files[key].Whole? && files[key].obj.TreeObject?
      ensures r.Ok? ==> files[key] == Whole(TreeObject(r.value))
      ensures r == Err(WrongKind) <==> key in files && files[key].Whole? && !files[key].obj.TreeObject?
    {
      var obj := ReadObject(key);
      match obj {
        case Ok(TreeObject(entries)) => r := Ok(entries);
        case Ok(_) => r := Err(WrongKind);
        case Err(e) => r := Err(e);
      }
    }
  }

  // ----- Keys -----

  lemma KindNames()
    ensures Ascii("blob") + [SPACE] == [98, 108, 111, 98, 32]
    ensures Ascii("tree") + [SPACE] == [116, 114, 101, 101, 32]
    ensures Ascii("commit") + [SPACE] == [99, 111, 109, 109, 105, 116, 32]
  {
  }

  /** The pre-images, byte by byte: the kind's name, a space, the length in decimal, a
      NUL and the content; a tag's is that of a blob of its JSON. */
  lemma PreimagesAreTyped(codec: Codec, obj: Object)
    ensures
      match obj
      case BlobObject(data) =>
        PreimageOf(codec, obj) == [98, 108, 111, 98, 32] + Decimal(|data|) + [0] + data
      case TreeObject(es) =>
        PreimageOf(codec, obj) == [116, 114, 101, 101, 32] + Decimal(|TreeContent(es)|) + [0] + TreeContent(es)
      case CommitObject(c) =>
        PreimageOf(codec, obj)
        == [99, 111, 109, 109, 105, 116, 32] + Decimal(|CommitContent(c)|) + [0] + CommitContent(c)
      case TagObject(tag) =>
        PreimageOf(codec, obj) == PreimageOf(codec, BlobObject(codec.tagJson(tag)))
    ensures KeyOf(codec, obj) == codec.digest(PreimageOf(codec, obj))
  {
    KindNames();
  }

  // ----- Runs of writes -----

  datatype PutOp = PutOp(obj: Object, io: WriteOutcome)

  function PutAll(codec: Codec, files: Files, ops: seq<PutOp>): Files
    decreases |ops|
  {
    if ops == [] then files
    else PutAll(codec, Put(codec, files, ops[0].obj, ops[0].io), ops[1..])
  }

  /** Every whole file sits under the key of its own object. */
  ghost predicate WellKeyed(codec: Codec, files: Files) {
    forall key | key in files && files[key].Whole? :: key == KeyOf(codec, files[key].obj)
  }

  /** Objects, once in the store, never change or disappear, and every whole file
      stays under its own key, whatever is written later and however it fails. */
  lemma {:induction false} StoreOnlyGrows(codec: Codec, files: Files, ops: seq<PutOp>)
    requires WellKeyed(codec, files)
    ensures WellKeyed(codec, PutAll(codec, files, ops))
    ensures forall key | key in files :: key in PutAll(codec, files, ops) && PutAll(codec, files, ops)[key] == files[key]
    decreases |ops|
  {
    if ops != [] {
      StoreOnlyGrows(codec, Put(codec, files, ops[0].obj, ops[0].io), ops[1..]);
    }
  }

  /** A write, successful or not, takes no blob away. */
  lemma PutKeepsBlobs(codec: Codec, files: Files, obj: Object, io: WriteOutcome, key: Hash)
    ensures key in files ==> key in Put(codec, files, obj, io)
    ensures GetBlob(files, key).Ok? ==> GetBlob(Put(codec, files, obj, io), key) == GetBlob(files, key)
  {
  }

  // ----- Round trips -----

  /** The digest tells `obj` apart from everything stored: equal keys come only
      from equal pre-images. */
  ghost predicate NoCollision(codec: Codec, files: Files, obj: Object) {
    forall key | key in files && files[key].Whole? && key == KeyOf(codec, obj) ::
      PreimageOf(codec, files[key].obj) == PreimageOf(codec, obj)
  }

  lemma KindsAreDistinct()
    ensures Ascii("blob") != Ascii("tree") && Ascii("blob") != Ascii("commit") && Ascii("tree") != Ascii("commit")
    ensures SPACE !in Ascii("blob") && SPACE !in Ascii("tree") && SPACE !in Ascii("commit")
  {
    assert Ascii("blob")[0] == 98 && Ascii("tree")[0] == 116 && Ascii("commit")[0] == 99;
  }

  lemma SamePreimage(codec: Codec, stored: Object, obj: Object)
    requires PreimageOf(codec, stored) == PreimageOf(codec, obj)
    ensures obj.BlobObject? ==> stored == obj || (stored.TagObject? && codec.tagJson(stored.tag) == obj.data)
    ensures obj.TreeObject? ==> stored.TreeObject? && TreeContent(stored.entries) == TreeContent(obj.entries)
  {
    KindsAreDistinct();
    var kind := (o: Object) =>
      match o case BlobObject(_) => Ascii("blob") case TreeObject(_) => Ascii("tree")
              case CommitObject(_) => Ascii("commit") case TagObject(_) => Ascii("blob");
    var content := (o: Object) =>
      match o case BlobObject(data) => data case TreeObject(es) => TreeContent(es)
              case CommitObject(c) => CommitContent(c) case TagObject(tag) => codec.tagJson(tag);
    PreimageInjective(kind(stored), content(stored), kind(obj), content(obj));
  }

  /** After a blob write that reported success, reading its key returns the same
      bytes exactly unless the slot was already taken by a torn file or by a tag
      whose JSON is those bytes. */
  lemma BlobRoundTripIff(codec: Codec, files: Files, data: Bytes, io: WriteOutcome)
    requires WellKeyed(codec, files) && NoCollision(codec, files, BlobObject(data))
    requires WriteSucceeds(files, BlobKey(codec, data), io)
    ensures
      var key := BlobKey(codec, data);
      GetBlob(Put(codec, files, BlobObject(data), io), key) == Ok(data) <==>
        key in files ==> files[key].Whole? && !files[key].obj.TagObject?
  {
    var key := BlobKey(codec, data);
    if key in files && files[key].Whole? {
      SamePreimage(codec, files[key].obj, BlobObject(data));
    }
  }

  /** A tree that was written successfully reads back as a permutation of what was
      put, also when the write was skipped because the object existed, and
      exactly unless the slot holds a torn file. */
  lemma TreeRoundTripIff(codec: Codec, files: Files, entries: seq<TreeEntry>, io: WriteOutcome)
    requires WellKeyed(codec, files) && NoCollision(codec, files, TreeObject(entries))
    requires AllPlain(entries)
    requires forall key | key in files && files[key].Whole? && files[key].obj.TreeObject? ::
               AllPlain(files[key].obj.entries)
    requires WriteSucceeds(files, KeyOf(codec, TreeObject(entries)), io)
    ensures
      var key := KeyOf(codec, TreeObject(entries));
      var r := GetTree(Put(codec, files, TreeObject(entries), io), key);
      && (r.Ok? && multiset(r.value) == multiset(entries) <==> key in files ==> files[key].Whole?)
      && (key !in files ==> r == Ok(entries))
  {
    var key := KeyOf(codec, TreeObject(entries));
    if key in files && files[key].Whole? {
      SamePreimage(codec, files[key].obj, TreeObject(entries));
      TreeContentDeterminesSort(entries, files[key].obj.entries);
      SortFacts(entries);
      SortFacts(files[key].obj.entries);
    }
  }

  /** A file torn by a failed write shadows its key for good: the retry reports
      success, and the blob still cannot be read. */
  lemma TornWriteShadowsRetry(codec: Codec, data: Bytes)
    ensures
      var torn := Put(codec, map[], BlobObject(data), CutShort);
      !WriteSucceeds(map[], BlobKey(codec, data), CutShort)
      && WriteSucceeds(torn, BlobKey(codec, data), Written)
      && GetBlob(Put(codec, torn, BlobObject(data), Written), BlobKey(codec, data)) == Err(Unreadable)
  {
  }

  /** A tag takes the key of the blob made of its JSON. */
  lemma TagShadowsBlob(codec: Codec, tag: Tag)
    ensures
      var tagged := Put(codec, map[], TagObject(tag), Written);
      var data := codec.tagJson(tag);
      WriteSucceeds(tagged, BlobKey(codec, data), Written)
      && GetBlob(Put(codec, tagged, BlobObject(data), Written), BlobKey(codec, data)) == Err(WrongKind)
  {
  }

  /** The slot a blob needs is free or already holds it. */
  predicate SlotServes(codec: Codec, files: Files, data: Bytes) {
    var key := BlobKey(codec, data);
    key in files ==> files[key] == Whole(BlobObject(data))
  }

  /** Nothing torn, no tags: what a store looks like when no write was ever cut
      short and nobody tagged. */
  ghost predicate Clean(files: Files) {
    forall key | key in files :: files[key].Whole? && !files[key].obj.TagObject?
  }

  /** In a clean store a digest without collisions keeps every slot available. */
  lemma CleanStoreServes(codec: Codec, files: Files, data: Bytes)
    requires WellKeyed(codec, files) && Clean(files) && NoCollision(codec, files, BlobObject(data))
    ensures SlotServes(codec, files, data)
  {
    var key := BlobKey(codec, data);
    if key in files {
      SamePreimage(codec, files[key].obj, BlobObject(data));
    }
  }
}
