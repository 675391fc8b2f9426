/**
  The receiving side's file writer (`collect.go`): `FileCollector.Collect`
  checks the batch size, creates (or truncates) the destination file, copies
  everything the reader has left into it, and on the way out syncs and closes
  the file.

  `World` is what `Collect` can affect: the reader, the directory and the log of
  file operations. `CollectSpec` says what one call does to it; the method is
  proved against it, and the properties the collector promises are lemmas
  about it.
*/
module Collect {
  import opened Wire
  import opened Io

  datatype CollectOpts = CollectOpts(batchSize: int, fileName: Path)

  datatype World = World(src: Source, files: map<Path, bytes>, log: seq<FsOp>)

  /** One `Collect` call. `createFault` is the operating system's answer to
      `os.Create`. */
  function CollectSpec(w: World, opts: CollectOpts, createFault: Option<nat>): (r: (World, Option<Error>))
  {
    if opts.batchSize <= 0 then
      (w, Some(ShortBuffer))
    else if createFault.Some? then
      (w, ErrorOf(createFault))
    else
      var name := opts.fileName;
      (World(Source([], w.src.fault), w.files[name := w.src.data], w.log + [Created(name), Synced(name), Closed(name)]),
       ErrorOf(w.src.fault))
  }

  class FileCollector {
    constructor ()
    {
    }

    /** `(co *FileCollector).Collect`. The copy goes through a buffer of
        `BatchSize` bytes, as `io.CopyBuffer` with a plain reader and writer does. */
    method Collect(rd: Reader, opts: CollectOpts, fs: FileSystem, createFault: Option<nat>) returns (err: Option<Error>)
      modifies rd, fs
      ensures (World(rd.src, fs.files, fs.log), err) == CollectSpec(World(old(rd.src), old(fs.files), old(fs.log)), opts, createFault)
    {
      if opts.batchSize <= 0 {
        return Some(ShortBuffer);
      }
      var name := opts.fileName;
      err := fs.Create(name, createFault);
      if err.Some? {
        return err;
      }
      var size: nat := opts.batchSize;
      ghost var files0, log0 := fs.files, fs.log;
      ghost var written: bytes := [];
      while rd.src.data != []
        invariant rd.src.fault == old(rd.src.fault)
        invariant old(rd.src.data) == written + rd.src.data
        invariant fs.files == files0[name := written] && fs.log == log0
        decreases |rd.src.data|
      {
        var n := Min(size, |rd.src.data|);
        var chunk := rd.src.data[..n];
        ghost var left := rd.src.data;
        assert left == chunk + left[n..];
        rd.src := Source(rd.src.data[n..], rd.src.fault);
        fs.Append(name, chunk);
        assert files0[name := written][name := written + chunk] == files0[name := written + chunk];
        written := written + chunk;
      }
      assert written == old(rd.src.data) && rd.src == Source([], old(rd.src.fault));
      assert fs.files == old(fs.files)[name := written];
      err := ErrorOf(rd.src.fault);
      fs.Sync(name);
      fs.Close(name);
      assert fs.log == old(fs.log) + [Created(name), Synced(name), Closed(name)];
    }
  }

  /** The batch size is checked before anything else: nothing is read, created or logged. */
  lemma ValidatesFirst(w: World, opts: CollectOpts, createFault: Option<nat>)
    requires opts.batchSize <= 0
    ensures CollectSpec(w, opts, createFault) == (w, Some(ShortBuffer))
  {
  }

  /** A refused `os.Create` is returned unchanged, before any byte is read. */
  lemma CreateFailureReadsNothing(w: World, opts: CollectOpts, code: nat)
    requires opts.batchSize > 0
    ensures CollectSpec(w, opts, Some(code)) == (w, Some(IoError(code)))
  {
  }

  /** After a successful create the destination holds exactly what the reader
      had left (any earlier contents are gone), every other file is as it was,
      and the reader is drained. */
  lemma DestinationIsRemainder(w: World, opts: CollectOpts)
    requires opts.batchSize > 0
    ensures var r := CollectSpec(w, opts, None).0;
      opts.fileName in r.files && r.files[opts.fileName] == w.src.data &&
      (forall n :: n in w.files && n != opts.fileName ==> n in r.files && r.files[n] == w.files[n]) &&
      r.files.Keys == w.files.Keys + {opts.fileName} && r.src.data == []
  {
  }

  /** The reader's own error is what `Collect` returns once it is drained; at
      `io.EOF` the result is nil. */
  lemma CopyErrorIsReaderError(w: World, opts: CollectOpts)
    requires opts.batchSize > 0
    ensures CollectSpec(w, opts, None).1 == ErrorOf(w.src.fault)
    ensures w.src.fault.None? <==> CollectSpec(w, opts, None).1.None?
  {
  }

  /** The batch size only sizes the copy buffer: any two positive sizes give
      the same outcome. */
  lemma BatchSizeIrrelevant(w: World, name: Path, a: int, b: int, createFault: Option<nat>)
    requires a > 0 && b > 0
    ensures CollectSpec(w, CollectOpts(a, name), createFault) == CollectSpec(w, CollectOpts(b, name), createFault)
  {
  }

  /** A file that was created is synced and then closed, once each, after
      everything else the call logged. */
  lemma SyncThenCloseOnce(w: World, opts: CollectOpts)
    requires opts.batchSize > 0
    ensures var log := CollectSpec(w, opts, None).0.log;
      |log| == |w.log| + 3 && log[..|w.log|] == w.log &&
      log[|w.log|..] == [Created(opts.fileName), Synced(opts.fileName), Closed(opts.fileName)]
  {
  }
}
