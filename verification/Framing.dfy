/** Length-prefixed framing: a big-endian 32-bit length, then the payload.

    The writer casts the length to 32 bits without a check, so the length on the
    wire is the payload's length modulo 2^32. */
module Framing {
  import opened Prelude

  const LENGTHS: nat := 0x1_0000_0000

  const HEADER: nat := 4

  datatype FrameError = UnexpectedEof | TooLarge(size: nat) | WriteFailed

  function ToBigEndian(n: nat): (b: Bytes)
    requires n < LENGTHS
    ensures |b| == HEADER
  {
    var high, low := n / 0x1_0000, n % 0x1_0000;
    [high / 0x100, high % 0x100, low / 0x100, low % 0x100]
  }

  function FromBigEndian(b: Bytes): (n: nat)
    requires |b| == HEADER
    ensures n < LENGTHS
  {
    (b[0] as int * 0x100 + b[1]) * 0x1_0000 + (b[2] as int * 0x100 + b[3])
  }

  lemma BigEndianRoundTrip(n: nat)
    requires n < LENGTHS
    ensures FromBigEndian(ToBigEndian(n)) == n
  {
  }

  /** What one write puts on the wire. */
  function Frame(data: Bytes): Bytes {
    ToBigEndian(|data| % LENGTHS) + data
  }

  /** One read at position `pos`: the payload or the error, and the position after
      it.  A read that meets the end of the stream has consumed what was left. */
  function ReadAt(bytes: Bytes, pos: nat, limit: nat): (Result<Bytes, FrameError>, nat)
    requires pos <= |bytes|
  {
    if |bytes| - pos < HEADER then (Err(UnexpectedEof), |bytes|)
    else
      var size := FromBigEndian(bytes[pos..pos + HEADER]);
      var start := pos + HEADER;
      if size > limit then (Err(TooLarge(size)), start)
      else if |bytes| - start < size then (Err(UnexpectedEof), |bytes|)
      else (Ok(bytes[start..start + size]), start + size)
  }

  /** A stream: everything written to it so far, and how far it has been read. */
  class Stream {
    var bytes: Bytes
    var pos: nat

    ghost predicate Valid()
      reads this
    {
      pos <= |bytes|
    }

    constructor ()
      ensures Valid() && bytes == [] && pos == 0
    {
      bytes, pos := [], 0;
    }

    /** Reads `n` bytes, or everything that is left and fails. */
    method ReadExact(n: nat) returns (r: Result<Bytes, FrameError>)
      requires Valid()
      modifies this`pos
      ensures Valid()
      ensures n <= |bytes| - old(pos) ==> r == Ok(bytes[old(pos)..old(pos) + n]) && pos == old(pos) + n
      ensures n > |bytes| - old(pos) ==> r == Err(UnexpectedEof) && pos == |bytes|
    {
      if n > |bytes| - pos {
        pos := |bytes|;
        return Err(UnexpectedEof);
      }
      r := Ok(bytes[pos..pos + n]);
      pos := pos + n;
    }

    /** Writes `data` unless the transport gives out after `room` bytes. */
    method WriteAll(data: Bytes, room: nat) returns (ok: bool)
      requires Valid()
      modifies this`bytes
      ensures Valid()
      ensures ok <==> |data| <= room
      ensures bytes == old(bytes) + if ok then data else data[..room]
    {
      ok := |data| <= room;
      bytes := bytes + if ok then data else data[..room];
    }

    method ReadLengthPrefixed(limit: nat) returns (r: Result<Bytes, FrameError>)
      requires Valid()
      modifies this`pos
      ensures Valid()
      ensures (r, pos) == ReadAt(bytes, old(pos), limit)
    {
      var header := ReadExact(HEADER);
      if header.Err? {
        return header;
      }
      var size := FromBigEndian(header.value);
      if size > limit {
        return Err(TooLarge(size));
      }
      r := ReadExact(size);
    }

    method WriteLengthPrefixed(data: Bytes, room: nat) returns (r: Result<(), FrameError>)
      requires Valid()
      modifies this`bytes
      ensures Valid()
      ensures r.Ok? <==> |Frame(data)| <= room
      ensures r.Ok? ==> bytes == old(bytes) + Frame(data)
      ensures r.Err? ==> bytes == old(bytes) + Frame(data)[..room]
    {
      var header := ToBigEndian(|data| % LENGTHS);
      var ok := WriteAll(header, room);
      if !ok {
        assert Frame(data)[..room] == header[..room];
        return Err(WriteFailed);
      }
      ok := WriteAll(data, room - HEADER);
      if !ok {
        assert Frame(data)[..room] == header + data[..room - HEADER];
        assert old(bytes) + header + data[..room - HEADER] == old(bytes) + (header + data[..room - HEADER]);
        return Err(WriteFailed);
      }
      assert old(bytes) + header + data == old(bytes) + Frame(data);
      return Ok(());
    }
  }

  // ----- One frame -----

  predicate Fits(data: Bytes, limit: nat) {
    |data| <= limit && |data| < LENGTHS
  }

  /** What a reader makes of a frame, wherever it stands in the stream. */
  lemma ReadingAFrame(before: Bytes, data: Bytes, rest: Bytes, limit: nat)
    ensures
      var size := |data| % LENGTHS;
      ReadAt(before + Frame(data) + rest, |before|, limit) ==
        if size > limit then (Err(TooLarge(size)), |before| + HEADER)
        else (Ok(data[..size]), |before| + HEADER + size)
  {
    var size := |data| % LENGTHS;
    var wire := before + Frame(data) + rest;
    assert wire[|before|..|before| + HEADER] == ToBigEndian(size);
    BigEndianRoundTrip(size);
    var start := |before| + HEADER;
    assert wire[start..start + size] == data[..size];
  }

  /** A written payload is read back, and exactly its frame consumed, if and only if
      it is within the reader's limit and shorter than 2^32 bytes. */
  lemma FrameRoundTripIff(before: Bytes, data: Bytes, rest: Bytes, limit: nat)
    ensures
      ReadAt(before + Frame(data) + rest, |before|, limit) == (Ok(data), |before| + |Frame(data)|)
      <==> Fits(data, limit)
  {
    ReadingAFrame(before, data, rest, limit);
    if |data| < LENGTHS {
      assert data[..|data|] == data;
    } else {
      assert |data[..|data| % LENGTHS]| != |data|;
    }
  }

  lemma ReadingPartOfAFrame(data: Bytes, n: nat, limit: nat)
    requires n < |Frame(data)|
    ensures
      var size := |data| % LENGTHS;
      ReadAt(Frame(data)[..n], 0, limit).0.Ok? <==> size <= limit && HEADER + size <= n
  {
    if HEADER <= n {
      assert Frame(data)[..n][0..HEADER] == ToBigEndian(|data| % LENGTHS);
      BigEndianRoundTrip(|data| % LENGTHS);
    }
  }

  /** No part of a frame that was cut short is taken for a payload, if and only if
      the length did not wrap around or what it wrapped to is over the limit. */
  lemma CutShortNeverReadIff(data: Bytes, limit: nat)
    ensures (forall n: nat | n < |Frame(data)| :: ReadAt(Frame(data)[..n], 0, limit).0.Err?)
            <==> |data| < LENGTHS || |data| % LENGTHS > limit
  {
    var size := |data| % LENGTHS;
    if |data| < LENGTHS || size > limit {
      forall n: nat | n < |Frame(data)|
        ensures ReadAt(Frame(data)[..n], 0, limit).0.Err?
      {
        ReadingPartOfAFrame(data, n, limit);
      }
    }
    if |data| >= LENGTHS && size <= limit {
      ReadingPartOfAFrame(data, HEADER + size, limit);
      assert ReadAt(Frame(data)[..HEADER + size], 0, limit).0.Ok?;
    }
  }

  // ----- Many frames -----

  /** The wire after the payloads were written one after the other. */
  function Wire(payloads: seq<Bytes>): Bytes {
    if payloads == [] then [] else Frame(payloads[0]) + Wire(payloads[1..])
  }

  /** Reads up to `n` frames from `pos`, stopping at the first error. */
  function ReadMany(bytes: Bytes, pos: nat, n: nat, limit: nat): (seq<Bytes>, nat)
    requires pos <= |bytes|
    decreases n
  {
    if n == 0 then ([], pos)
    else
      var (first, next) := ReadAt(bytes, pos, limit);
      if first.Err? then ([], next)
      else
        var (others, end) := ReadMany(bytes, next, n - 1, limit);
        ([first.value] + others, end)
  }

  lemma {:induction false} ReadManyAfter(before: Bytes, payloads: seq<Bytes>, limit: nat)
    requires forall k | 0 <= k < |payloads| :: Fits(payloads[k], limit)
    ensures ReadMany(before + Wire(payloads), |before|, |payloads|, limit)
            == (payloads, |before + Wire(payloads)|)
    decreases |payloads|
  {
    if payloads != [] {
      var frame, rest := Frame(payloads[0]), Wire(payloads[1..]);
      assert before + Wire(payloads) == before + frame + rest;
      FrameRoundTripIff(before, payloads[0], rest, limit);
      ReadManyAfter(before + frame, payloads[1..], limit);
      assert [payloads[0]] + payloads[1..] == payloads;
    }
  }

  lemma ReadManySplits(bytes: Bytes, pos: nat, all: seq<Bytes>, limit: nat)
    requires pos <= |bytes| && all != []
    requires ReadMany(bytes, pos, |all|, limit).0 == all
    ensures
      var (first, next) := ReadAt(bytes, pos, limit);
      first == Ok(all[0]) && ReadMany(bytes, next, |all| - 1, limit).0 == all[1..]
  {
    var (first, next) := ReadAt(bytes, pos, limit);
    if first.Ok? {
      var others := ReadMany(bytes, next, |all| - 1, limit).0;
      assert [first.value] + others == all;
      assert all[0] == first.value && all[1..] == others;
    }
  }

  lemma ReadWholeFits(before: Bytes, data: Bytes, rest: Bytes, limit: nat)
    requires ReadAt(before + Frame(data) + rest, |before|, limit).0 == Ok(data)
    ensures Fits(data, limit)
    ensures ReadAt(before + Frame(data) + rest, |before|, limit).1 == |before + Frame(data)|
  {
    ReadingAFrame(before, data, rest, limit);
  }

  lemma {:induction false} ReadManyFits(before: Bytes, payloads: seq<Bytes>, limit: nat)
    requires ReadMany(before + Wire(payloads), |before|, |payloads|, limit).0 == payloads
    ensures forall k | 0 <= k < |payloads| :: Fits(payloads[k], limit)
    decreases |payloads|
  {
    if payloads != [] {
      var frame, rest := Frame(payloads[0]), Wire(payloads[1..]);
      assert before + Wire(payloads) == before + frame + rest;
      ReadManySplits(before + frame + rest, |before|, payloads, limit);
      ReadWholeFits(before, payloads[0], rest, limit);
      ReadManyFits(before + frame, payloads[1..], limit);
      forall k | 0 < k < |payloads|
        ensures Fits(payloads[k], limit)
      {
        assert payloads[k] == payloads[1..][k - 1];
      }
    }
  }

  /** A list of payloads written as consecutive frames is read back as exactly that
      list, with the stream consumed to its end, if and only if every one of them is
      within the limit and shorter than 2^32 bytes. */
  lemma StreamRoundTripIff(payloads: seq<Bytes>, limit: nat)
    ensures ReadMany(Wire(payloads), 0, |payloads|, limit) == (payloads, |Wire(payloads)|)
            <==> forall k | 0 <= k < |payloads| :: Fits(payloads[k], limit)
  {
    assert [] + Wire(payloads) == Wire(payloads);
    if forall k | 0 <= k < |payloads| :: Fits(payloads[k], limit) {
      ReadManyAfter([], payloads, limit);
    }
    if ReadMany(Wire(payloads), 0, |payloads|, limit) == (payloads, |Wire(payloads)|) {
      ReadManyFits([], payloads, limit);
    }
  }

  lemma FirstFrameIsDetermined(data: Bytes, rest: Bytes, other: Bytes, otherRest: Bytes)
    requires |data| < LENGTHS && |other| < LENGTHS
    requires Frame(data) + rest == Frame(other) + otherRest
    ensures data == other && rest == otherRest
  {
    assert [] + Frame(data) + rest == Frame(data) + rest;
    assert [] + Frame(other) + otherRest == Frame(other) + otherRest;
    FrameRoundTripIff([], data, rest, LENGTHS);
    FrameRoundTripIff([], other, otherRest, LENGTHS);
    assert rest == (Frame(data) + rest)[|Frame(data)|..];
  }

  /** The wire determines the payloads, even their number. */
  lemma {:induction false} WireDeterminesPayloads(payloads: seq<Bytes>, others: seq<Bytes>)
    requires forall k | 0 <= k < |payloads| :: |payloads[k]| < LENGTHS
    requires forall k | 0 <= k < |others| :: |others[k]| < LENGTHS
    requires Wire(payloads) == Wire(others)
    ensures payloads == others
    decreases |payloads|
  {
    if payloads != [] && others != [] {
      var a, b := Wire(payloads[1..]), Wire(others[1..]);
      FirstFrameIsDetermined(payloads[0], a, others[0], b);
      WireDeterminesPayloads(payloads[1..], others[1..]);
      assert payloads == [payloads[0]] + payloads[1..];
    }
  }

  // ----- The bytes of a frame -----

  /** A frame is four bytes of length, the first counting most, and the payload. */
  lemma FrameBytes(data: Bytes)
    ensures |Frame(data)| == 4 + |data| && Frame(data)[4..] == data
    ensures
      var f := Frame(data);
      f[0] as int * 0x100_0000 + f[1] as int * 0x1_0000 + f[2] as int * 0x100 + f[3] as int == |data| % 0x1_0000_0000
  {
    BigEndianRoundTrip(|data| % LENGTHS);
    assert FromBigEndian(ToBigEndian(|data| % LENGTHS)) ==
           (Frame(data)[0] as int * 0x100 + Frame(data)[1]) * 0x1_0000 + (Frame(data)[2] as int * 0x100 + Frame(data)[3]);
  }

  /** A stream that ends inside a frame: once the whole header is there, an announced
      length over the limit is reported with that length and nothing more is read;
      in all other cases the reader meets the end of the stream and has consumed it. */
  lemma CutShortIsReported(data: Bytes, n: nat, limit: nat)
    requires n < |Frame(data)| && |data| < LENGTHS
    ensures ReadAt(Frame(data)[..n], 0, limit) ==
            if n >= 4 && |data| > limit then (Err(TooLarge(|data|)), 4) else (Err(UnexpectedEof), n)
  {
    if HEADER <= n {
      assert Frame(data)[..n][0..HEADER] == ToBigEndian(|data| % LENGTHS);
      BigEndianRoundTrip(|data| % LENGTHS);
    }
  }
}
