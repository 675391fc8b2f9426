/**
  The receiving end of a transfer (`consumer.go`): `Consume` reads the
  little-endian metadata header from the connection and hands the rest of the
  stream to its collector, under the path the header names.

  The `Collect` interface has one implementation in the repository,
  `FileCollector`; the consumer holds one of those.
*/
module Consumer {
  import opened Wire
  import opened Io
  import Meta
  import opened Collect

  /** One `Consume` call: the header, then the collector on what follows it. */
  function ConsumeSpec(w: World, batchSize: u32, createFault: Option<nat>): (r: (World, Option<Error>))
  {
    var header := Meta.Deserialize(w.src);
    if header.result.Fail? then
      (w.(src := header.rest), Some(header.result.error))
    else
      CollectSpec(w.(src := header.rest), CollectOpts(batchSize, header.result.value.path), createFault)
  }

  class Consumer {
    const col: FileCollector

    constructor NewTcpConsumer(col: FileCollector)
      ensures this.col == col
    {
      this.col := col;
    }

    /** `(c *Consumer).Consume`. `wr` is accepted and never used, so it is not
        in the frame: nothing is written back to the sender. */
    method Consume(rd: Reader, wr: Sink, batchSize: u32, fs: FileSystem, createFault: Option<nat>) returns (err: Option<Error>)
      modifies rd, fs
      ensures (World(rd.src, fs.files, fs.log), err) == ConsumeSpec(World(old(rd.src), old(fs.files), old(fs.log)), batchSize, createFault)
      ensures wr.calls == old(wr.calls)
    {
      var header := Meta.Deserialize(rd.src);
      rd.src := header.rest;
      if header.result.Fail? {
        return Some(header.result.error);
      }
      err := col.Collect(rd, CollectOpts(batchSize, header.result.value.path), fs, createFault);
    }
  }

  /** A header that does not decode is reported as is; the collector never
      runs, so no file is created and nothing is logged. */
  lemma HeaderFailureSkipsCollector(w: World, batchSize: u32, createFault: Option<nat>)
    requires Meta.Deserialize(w.src).result.Fail?
    ensures var r := ConsumeSpec(w, batchSize, createFault);
      r.0.files == w.files && r.0.log == w.log && r.1 == Some(Meta.Deserialize(w.src).result.error)
  {
  }

  /** The collector sees the reader just past the header, the batch size
      widened to `int`, and the header's path as the file name. */
  lemma CollectorGetsRest(w: World, batchSize: u32, createFault: Option<nat>)
    requires Meta.Deserialize(w.src).result.Ok?
    ensures var header := Meta.Deserialize(w.src);
      ConsumeSpec(w, batchSize, createFault) ==
        CollectSpec(World(Source(w.src.data[HeaderSize(|header.result.value.path|)..], w.src.fault), w.files, w.log),
                    CollectOpts(batchSize as int, header.result.value.path), createFault)
  {
  }

  /** End to end: a serialized header followed by a payload leaves exactly the
      payload in the file the header names, synced and closed, and the result
      is the stream's own ending (nil at `io.EOF`). */
  lemma EndToEnd(m: Meta.Metadata, payload: bytes, fault: Option<nat>, files: map<Path, bytes>, log: seq<FsOp>, batchSize: u32)
    requires |m.path| < 0x1_0000 && batchSize > 0
    ensures ConsumeSpec(World(Source(Meta.Serialize(m) + payload, fault), files, log), batchSize, None) ==
      (World(Source([], fault), files[m.path := payload], log + [Created(m.path), Synced(m.path), Closed(m.path)]), ErrorOf(fault))
  {
    Meta.RoundTrip(m, payload, fault);
  }

  /** A zero batch size is refused by the collector only after the header has
      been consumed: the reader is left just past it and no file is touched. */
  lemma ZeroBatchSizeAfterHeader(m: Meta.Metadata, payload: bytes, fault: Option<nat>, files: map<Path, bytes>, log: seq<FsOp>, createFault: Option<nat>)
    requires |m.path| < 0x1_0000
    ensures ConsumeSpec(World(Source(Meta.Serialize(m) + payload, fault), files, log), 0, createFault) ==
      (World(Source(payload, fault), files, log), Some(ShortBuffer))
  {
    Meta.RoundTrip(m, payload, fault);
  }

  /** A create failure for the header's path is returned after the header was
      consumed, and the payload is left unread. */
  lemma CreateFailureLeavesPayload(m: Meta.Metadata, payload: bytes, fault: Option<nat>, files: map<Path, bytes>, log: seq<FsOp>, batchSize: u32, code: nat)
    requires |m.path| < 0x1_0000 && batchSize > 0
    ensures ConsumeSpec(World(Source(Meta.Serialize(m) + payload, fault), files, log), batchSize, Some(code)) ==
      (World(Source(payload, fault), files, log), Some(IoError(code)))
  {
    Meta.RoundTrip(m, payload, fault);
  }
}
