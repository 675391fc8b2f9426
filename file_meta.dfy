/**
  The older, big-endian revision of the metadata header (`file_meta.go`):

    [ rune count: u16 BE ][ runes: 4 bytes BE each ][ batchID: u32 BE ]

  Here `Deserialize` takes the whole buffer and reads it through a private
  `bytes.Reader`, so it is a pure function of the bytes; the receiver plays no
  part in the result.
*/
module FileMeta {
  import opened Wire
  import opened Io

  datatype FileMeta = FileMeta(path: Path, batchId: u32)

  datatype FileMetaOpts = FileMetaOpts(path: Path, batchId: u32)

  function NewMeta(opts: FileMetaOpts): (fm: FileMeta)
    ensures fm.path == opts.path && fm.batchId == opts.batchId
  {
    FileMeta(opts.path, opts.batchId)
  }

  /** The header: the wrapped rune count, the runes, then batchID, all big-endian. */
  function Serialize(fm: FileMeta): (r: bytes)
    ensures |r| == HeaderSize(|fm.path|)
  {
    EncodeU16(BigEndian, RuneCount(fm.path)) + EncodeRunes(BigEndian, fm.path) + EncodeU32(BigEndian, fm.batchId)
  }

  /** The header's fields: the count is the wrapped rune count, the `i`-th
      rune unit holds the `i`-th scalar value, the last four bytes batchID. */
  lemma SerializeLayout(fm: FileMeta)
    ensures var r := Serialize(fm);
      DecodeU16(BigEndian, r[..2]) == RuneCount(fm.path) &&
      (forall i :: 0 <= i < |fm.path| ==> DecodeU32(BigEndian, r[2 + 4 * i..6 + 4 * i]) == fm.path[i]) &&
      DecodeU32(BigEndian, r[|r| - 4..]) == fm.batchId
  {
    HeaderLayout(BigEndian, RuneCount(fm.path), fm.path, fm.batchId);
    HeaderRunes(BigEndian, EncodeU16(BigEndian, RuneCount(fm.path)), fm.path, EncodeU32(BigEndian, fm.batchId));
  }

  /** An empty path with batchID 123 is the six bytes `00 00 00 00 00 7B`. */
  lemma EmptyPathHeader()
    ensures Serialize(FileMeta([], 123)) == [0x00, 0x00, 0x00, 0x00, 0x00, 0x7B]
  {
  }

  /** The first read of `readPath`: an `io.EOF` here is read as count 0. */
  function ReadCount(rd: Source): (r: Step<u16>)
    ensures r.rest.fault == rd.fault
    ensures |rd.data| >= 2 ==> r == Step(Ok(DecodeU16(BigEndian, rd.data[..2])), Source(rd.data[2..], rd.fault))
    ensures rd.data == [] && rd.fault.None? ==> r == Step(Ok(0), rd)
    ensures |rd.data| == 1 || (rd.data == [] && rd.fault.Some?) ==> r.result.Fail? && r.rest.data == []
  {
    var count := ReadFull(rd, 2);
    if count.result.Ok? then Step(Ok(DecodeU16(BigEndian, count.result.value)), count.rest)
    else if count.result.error == EOF then Step(Ok(0), count.rest)
    else Step(Fail(count.result.error), count.rest)
  }

  /** The second read of `readPath`: an `io.EOF` here leaves all `n` runes zero. */
  function ReadRunes(rd: Source, n: u16): (r: Step<Path>)
    ensures r.rest.fault == rd.fault
    ensures r.result.Ok? ==> |r.result.value| == n
  {
    var runes := ReadFull(rd, 4 * n);
    if runes.result.Ok? then Step(Ok(DecodeRunes(BigEndian, runes.result.value)), runes.rest)
    else if runes.result.error == EOF then Step(Ok(seq(n, _ => 0)), runes.rest)
    else Step(Fail(runes.result.error), runes.rest)
  }

  /** `readPath`: the count, then that many runes. */
  function ReadPath(rd: Source): (r: Step<Path>)
    ensures r.rest.fault == rd.fault
  {
    var count := ReadCount(rd);
    if count.result.Fail? then Step(Fail(count.result.error), count.rest)
    else ReadRunes(count.rest, count.result.value)
  }

  /** `(fm *FileMeta).Deserialize(data)`: a new value or an error, never both. */
  function Deserialize(fm: FileMeta, data: bytes): (r: Result<FileMeta>)
    ensures data == [] ==> r == Fail(BufferEmpty)
  {
    if |data| == 0 then
      Fail(BufferEmpty)
    else
      var path := ReadPath(Source(data, None));
      if path.result.Fail? then
        Fail(path.result.error)
      else
        var id := ReadFull(path.rest, 4);
        if id.result.Fail? then Fail(id.result.error)
        else Ok(FileMeta(path.result.value, DecodeU32(BigEndian, id.result.value)))
  }

  /** A count, the runes it announces, a batchID unit and anything after: the
      trailing bytes are never looked at. */
  lemma DeserializeParts(fm: FileMeta, count: bytes, runes: bytes, unit: bytes, after: bytes)
    requires |count| == 2 && |unit| == 4 && |runes| == 4 * DecodeU16(BigEndian, count)
    ensures Deserialize(fm, count + (runes + (unit + after))) ==
      Ok(FileMeta(DecodeRunes(BigEndian, runes), DecodeU32(BigEndian, unit)))
  {
    assert ReadCount(Source(count + (runes + (unit + after)), None)) ==
      Step(Ok(DecodeU16(BigEndian, count)), Source(runes + (unit + after), None)) by {
      ReadFullPrefix(count, runes + (unit + after), None);
    }
    assert ReadRunes(Source(runes + (unit + after), None), DecodeU16(BigEndian, count)) ==
      Step(Ok(DecodeRunes(BigEndian, runes)), Source(unit + after, None)) by {
      ReadFullPrefix(runes, unit + after, None);
    }
    ReadFullPrefix(unit, after, None);
  }

  /** A header followed by more bytes, grouped the way the reader meets them. */
  lemma SerializeThen(m: FileMeta, tail: bytes)
    ensures Serialize(m) + tail ==
      EncodeU16(BigEndian, RuneCount(m.path)) + (EncodeRunes(BigEndian, m.path) + (EncodeU32(BigEndian, m.batchId) + tail))
  {
    var count, runes, id := EncodeU16(BigEndian, RuneCount(m.path)), EncodeRunes(BigEndian, m.path), EncodeU32(BigEndian, m.batchId);
    AppendAssoc(count, runes, id);
    AppendAssoc(count + runes, id, tail);
    AppendAssoc(count, runes, id + tail);
  }

  /** Any receiver decodes a serialized header back to the value written, and
      bytes after the header are ignored. */
  lemma RoundTrip(fm: FileMeta, m: FileMeta, tail: bytes)
    requires |m.path| < 0x1_0000
    ensures Deserialize(fm, Serialize(m) + tail) == Ok(m)
  {
    var count := EncodeU16(BigEndian, RuneCount(m.path));
    U16RoundTrip(BigEndian, |m.path|, count, count);
    RunesRoundTrip(BigEndian, m.path);
    SerializeThen(m, tail);
    DeserializeParts(fm, count, EncodeRunes(BigEndian, m.path), EncodeU32(BigEndian, m.batchId), tail);
  }

  /** With 65536 or more scalar values the count wraps: the buffer decodes to
      the first `count % 65536` of them as the path and the next one as batchID. */
  lemma CountWraps(fm: FileMeta, m: FileMeta, tail: bytes)
    requires |m.path| >= 0x1_0000
    ensures Deserialize(fm, Serialize(m) + tail) ==
      Ok(FileMeta(m.path[..|m.path| % 0x1_0000], m.path[|m.path| % 0x1_0000]))
  {
    var k := |m.path| % 0x1_0000;
    var count, id := EncodeU16(BigEndian, k), EncodeU32(BigEndian, m.batchId);
    var front, unit, back := EncodeRunes(BigEndian, m.path[..k]), EncodeU32(BigEndian, m.path[k]), EncodeRunes(BigEndian, m.path[k + 1..]);
    SerializeThen(m, tail);
    assert EncodeRunes(BigEndian, m.path) + (id + tail) == front + (unit + (back + (id + tail))) by {
      EncodeRunesSplit(BigEndian, m.path, k);
      AppendAssoc(front, unit + back, id + tail);
      AppendAssoc(unit, back, id + tail);
    }
    U16RoundTrip(BigEndian, k, count, count);
    RunesRoundTrip(BigEndian, m.path[..k]);
    DeserializeParts(fm, count, front, unit, back + (id + tail));
  }

  /** Decoding succeeds exactly when the whole header the count announces is there. */
  lemma SucceedsIff(fm: FileMeta, data: bytes)
    ensures Deserialize(fm, data).Ok? <==>
      |data| >= 2 && |data| >= HeaderSize(DecodeU16(BigEndian, data[..2]))
  {
  }

  /** Whether and to what a buffer decodes depends only on its header bytes:
      replacing everything after them changes nothing, whatever the receiver. */
  lemma PrefixDecides(fm: FileMeta, other: FileMeta, data: bytes, tail: bytes)
    requires Deserialize(fm, data).Ok?
    ensures var h := HeaderSize(DecodeU16(BigEndian, data[..2]));
      h <= |data| && Deserialize(other, data[..h] + tail) == Deserialize(fm, data)
  {
    SucceedsIff(fm, data);
    var n: nat := DecodeU16(BigEndian, data[..2]);
    var h := HeaderSize(n);
    var count, runes, unit := data[..2], data[2..2 + 4 * n], data[2 + 4 * n..h];
    Regroup(data, 2, 2 + 4 * n, h, tail);
    DeserializeParts(fm, count, runes, unit, data[h..]);
    DeserializeParts(other, count, runes, unit, tail);
  }

  /** A count longer than the runes present is `io.ErrUnexpectedEOF`. */
  lemma TruncatedRunesFail(fm: FileMeta, data: bytes)
    requires 2 < |data| < 2 + 4 * DecodeU16(BigEndian, data[..2])
    ensures Deserialize(fm, data) == Fail(UnexpectedEOF)
  {
  }

  /** Count 5 followed by only the two runes "ab". */
  lemma CorruptedBufferFails(fm: FileMeta)
    ensures Deserialize(fm, EncodeU16(BigEndian, 5) + EncodeRunes(BigEndian, [97, 98])) == Fail(UnexpectedEOF)
  {
    var data := EncodeU16(BigEndian, 5) + EncodeRunes(BigEndian, [97, 98]);
    assert data[..2] == EncodeU16(BigEndian, 5);
    U16RoundTrip(BigEndian, 5, data[..2], data[..2]);
    TruncatedRunesFail(fm, data);
  }
}
