/**
  The little-endian metadata header of `meta.go`:

    [ rune count: u16 LE ][ runes: 4 bytes LE each ][ batchID: u32 LE ]

  `Deserialize` reads it from a caller-owned reader and leaves the reader
  positioned just after it, so it is modelled as a function returning the
  result together with what the reader has left.
*/
module Meta {
  import opened Wire
  import opened Io

  datatype Metadata = Metadata(path: Path, batchId: u32)

  datatype MetaOpts = MetaOpts(path: Path, batchId: u32)

  function NewMetadata(opts: MetaOpts): (m: Metadata)
    ensures m.path == opts.path && m.batchId == opts.batchId
  {
    Metadata(opts.path, opts.batchId)
  }

  /** The header: the wrapped rune count, the runes, then batchID, all little-endian. */
  function Serialize(m: Metadata): (r: bytes)
    ensures |r| == HeaderSize(|m.path|)
  {
    EncodeU16(LittleEndian, RuneCount(m.path)) + EncodeRunes(LittleEndian, m.path) + EncodeU32(LittleEndian, m.batchId)
  }

  /** The header's fields: the count is the wrapped rune count, the `i`-th
      rune unit holds the `i`-th scalar value, the last four bytes batchID. */
  lemma SerializeLayout(m: Metadata)
    ensures var r := Serialize(m);
      DecodeU16(LittleEndian, r[..2]) == RuneCount(m.path) &&
      (forall i :: 0 <= i < |m.path| ==> DecodeU32(LittleEndian, r[2 + 4 * i..6 + 4 * i]) == m.path[i]) &&
      DecodeU32(LittleEndian, r[|r| - 4..]) == m.batchId
  {
    HeaderLayout(LittleEndian, RuneCount(m.path), m.path, m.batchId);
    HeaderRunes(LittleEndian, EncodeU16(LittleEndian, RuneCount(m.path)), m.path, EncodeU32(LittleEndian, m.batchId));
  }

  /** The first read of `readPath`: an `io.EOF` here is read as count 0. */
  function ReadCount(rd: Source): (r: Step<u16>)
    ensures r.rest.fault == rd.fault
    ensures |rd.data| >= 2 ==> r == Step(Ok(DecodeU16(LittleEndian, rd.data[..2])), Source(rd.data[2..], rd.fault))
    ensures rd.data == [] && rd.fault.None? ==> r == Step(Ok(0), rd)
    ensures |rd.data| == 1 || (rd.data == [] && rd.fault.Some?) ==> r.result.Fail? && r.rest.data == []
    ensures r.result.Ok? && r.rest.data != [] ==> 2 <= |rd.data| && r.rest.data == rd.data[2..]
  {
    var count := ReadFull(rd, 2);
    if count.result.Ok? then Step(Ok(DecodeU16(LittleEndian, count.result.value)), count.rest)
    else if count.result.error == EOF then Step(Ok(0), count.rest)
    else Step(Fail(count.result.error), count.rest)
  }

  /** The second read of `readPath`: an `io.EOF` here leaves all `n` runes zero. */
  function ReadRunes(rd: Source, n: u16): (r: Step<Path>)
    ensures r.rest.fault == rd.fault
    ensures r.result.Ok? ==> |r.result.value| == n
    ensures r.result.Ok? && r.rest.data != [] ==> 4 * n <= |rd.data| && r.rest.data == rd.data[4 * n..]
  {
    var runes := ReadFull(rd, 4 * n);
    if runes.result.Ok? then Step(Ok(DecodeRunes(LittleEndian, runes.result.value)), runes.rest)
    else if runes.result.error == EOF then Step(Ok(seq(n, _ => 0)), runes.rest)
    else Step(Fail(runes.result.error), runes.rest)
  }

  /** `readPath`: the count, then that many runes; errors other than `io.EOF`
      are returned. */
  function ReadPath(rd: Source): (r: Step<Path>)
    ensures r.rest.fault == rd.fault
    ensures r.result.Ok? ==> |r.result.value| < 0x1_0000
    ensures r.result.Ok? && r.rest.data != [] ==>
      2 + 4 * |r.result.value| <= |rd.data| && r.rest.data == rd.data[2 + 4 * |r.result.value|..]
  {
    var count := ReadCount(rd);
    if count.result.Fail? then Step(Fail(count.result.error), count.rest)
    else ReadRunes(count.rest, count.result.value)
  }

  function Deserialize(rd: Source): (r: Step<Metadata>)
    ensures r.rest.fault == rd.fault
    ensures r.result.Ok? ==>
      |r.result.value.path| < 0x1_0000 && HeaderSize(|r.result.value.path|) <= |rd.data| &&
      r.rest.data == rd.data[HeaderSize(|r.result.value.path|)..]
  {
    var path := ReadPath(rd);
    if path.result.Fail? then
      Step(Fail(path.result.error), path.rest)
    else
      var id := ReadFull(path.rest, 4);
      if id.result.Fail? then
        Step(Fail(id.result.error), id.rest)
      else
        assert path.rest.data == rd.data[2 + 4 * |path.result.value|..];
        assert id.rest.data == rd.data[HeaderSize(|path.result.value|)..];
        Step(Ok(Metadata(path.result.value, DecodeU32(LittleEndian, id.result.value))), id.rest)
  }

  /** An empty path with batchID 123 is the six bytes `00 00 7B 00 00 00`. */
  lemma EmptyPathHeader()
    ensures Serialize(Metadata([], 123)) == [0x00, 0x00, 0x7B, 0x00, 0x00, 0x00]
  {
  }

  /** A header followed by more bytes, grouped the way a reader meets them. */
  lemma SerializeThen(m: Metadata, tail: bytes)
    ensures Serialize(m) + tail ==
      EncodeU16(LittleEndian, RuneCount(m.path)) + (EncodeRunes(LittleEndian, m.path) + (EncodeU32(LittleEndian, m.batchId) + tail))
  {
    var count, runes, id := EncodeU16(LittleEndian, RuneCount(m.path)), EncodeRunes(LittleEndian, m.path), EncodeU32(LittleEndian, m.batchId);
    AppendAssoc(count, runes, id);
    AppendAssoc(count + runes, id, tail);
    AppendAssoc(count, runes, id + tail);
  }

  /** `ReadPath` on a count, exactly that many runes and anything after them. */
  lemma ReadPathPrefix(p: Path, after: bytes, fault: Option<nat>)
    requires |p| < 0x1_0000
    ensures ReadPath(Source(EncodeU16(LittleEndian, |p|) + (EncodeRunes(LittleEndian, p) + after), fault))
         == Step(Ok(p), Source(after, fault))
  {
    var count, runes := EncodeU16(LittleEndian, |p|), EncodeRunes(LittleEndian, p);
    assert ReadCount(Source(count + (runes + after), fault)) == Step(Ok(|p|), Source(runes + after, fault)) by {
      ReadFullPrefix(count, runes + after, fault);
      U16RoundTrip(LittleEndian, |p|, count, count);
    }
    assert ReadRunes(Source(runes + after, fault), |p|) == Step(Ok(p), Source(after, fault)) by {
      ReadFullPrefix(runes, after, fault);
      RunesRoundTrip(LittleEndian, p);
    }
  }

  /** `Deserialize` on a count, exactly that many runes, four more bytes and anything after. */
  lemma DeserializePrefix(p: Path, unit: bytes, after: bytes, fault: Option<nat>)
    requires |p| < 0x1_0000 && |unit| == 4
    ensures Deserialize(Source(EncodeU16(LittleEndian, |p|) + (EncodeRunes(LittleEndian, p) + (unit + after)), fault))
         == Step(Ok(Metadata(p, DecodeU32(LittleEndian, unit))), Source(after, fault))
  {
    ReadPathPrefix(p, unit + after, fault);
    ReadFullPrefix(unit, after, fault);
  }

  /** Reading a header back yields the metadata written, and leaves every byte
      after the header unread. */
  lemma RoundTrip(m: Metadata, tail: bytes, fault: Option<nat>)
    requires |m.path| < 0x1_0000
    ensures Deserialize(Source(Serialize(m) + tail, fault)) == Step(Ok(m), Source(tail, fault))
  {
    SerializeThen(m, tail);
    DeserializePrefix(m.path, EncodeU32(LittleEndian, m.batchId), tail, fault);
  }

  /** How a header with a wrapped count lines up: `k` runes, then the unit the
      reader will take for batchID, then everything else. */
  lemma WrappedLayout(m: Metadata, k: nat, tail: bytes)
    requires |m.path| >= 0x1_0000 && k == |m.path| % 0x1_0000
    ensures Serialize(m) + tail == EncodeU16(LittleEndian, k) + (EncodeRunes(LittleEndian, m.path[..k]) +
      (EncodeU32(LittleEndian, m.path[k]) + (EncodeRunes(LittleEndian, m.path[k + 1..]) + (EncodeU32(LittleEndian, m.batchId) + tail))))
  {
    var runes, id := EncodeRunes(LittleEndian, m.path), EncodeU32(LittleEndian, m.batchId);
    var front, unit, back := EncodeRunes(LittleEndian, m.path[..k]), EncodeU32(LittleEndian, m.path[k]), EncodeRunes(LittleEndian, m.path[k + 1..]);
    SerializeThen(m, tail);
    assert runes + (id + tail) == front + (unit + (back + (id + tail))) by {
      EncodeRunesSplit(LittleEndian, m.path, k);
      AppendAssoc(front, unit + back, id + tail);
      AppendAssoc(unit, back, id + tail);
    }
  }

  /** With 65536 or more scalar values the count wraps: the reader takes the
      first `count % 65536` of them as the path and the next one as batchID. */
  lemma CountWraps(m: Metadata, tail: bytes, fault: Option<nat>)
    requires |m.path| >= 0x1_0000
    ensures Deserialize(Source(Serialize(m) + tail, fault)).result ==
      Ok(Metadata(m.path[..|m.path| % 0x1_0000], m.path[|m.path| % 0x1_0000]))
  {
    var k := |m.path| % 0x1_0000;
    var after := EncodeRunes(LittleEndian, m.path[k + 1..]) + (EncodeU32(LittleEndian, m.batchId) + tail);
    WrappedLayout(m, k, tail);
    DeserializePrefix(m.path[..k], EncodeU32(LittleEndian, m.path[k]), after, fault);
  }

  /** Decoding succeeds exactly when the whole header the count announces is there. */
  lemma SucceedsIff(rd: Source)
    ensures Deserialize(rd).result.Ok? <==>
      |rd.data| >= 2 && |rd.data| >= HeaderSize(DecodeU16(LittleEndian, rd.data[..2]))
  {
  }

  /** The two swallowed `io.EOF`s never lead to a result: the batchID read that
      follows them meets the end of the stream as well. */
  lemma SwallowedEofFails(rd: Source)
    requires |rd.data| == 0 || (|rd.data| == 2 && DecodeU16(LittleEndian, rd.data) > 0)
    ensures Deserialize(rd).result == Fail(EndError(rd.fault))
  {
  }

  /** A count whose runes are cut short is an `io.ErrUnexpectedEOF`, not swallowed. */
  lemma TruncatedRunesFail(rd: Source)
    requires 2 < |rd.data| < 2 + 4 * DecodeU16(LittleEndian, rd.data[..2])
    ensures Deserialize(rd).result == Fail(if rd.fault.None? then UnexpectedEOF else EndError(rd.fault))
  {
  }

  /** Count 5 followed by only the two runes "ab". */
  lemma CorruptedHeaderFails()
    ensures Deserialize(Source(EncodeU16(LittleEndian, 5) + EncodeRunes(LittleEndian, [97, 98]), None)).result == Fail(UnexpectedEOF)
  {
    var data := EncodeU16(LittleEndian, 5) + EncodeRunes(LittleEndian, [97, 98]);
    assert data[..2] == EncodeU16(LittleEndian, 5);
    U16RoundTrip(LittleEndian, 5, data[..2], data[..2]);
    TruncatedRunesFail(Source(data, None));
  }
}
