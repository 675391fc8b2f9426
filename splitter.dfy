/**
  The sending side (`splitter.go`): cutting a stream into chunks of at most
  `BatchSize` bytes.

  Both splitters read through a `bufio.Reader`. Its `Read` may return fewer
  bytes than asked for, so the length of every read comes from a `ReadOracle`;
  the oracle also says whether the last bytes of the stream arrive together
  with its end (`io.EOF` or the reader's error) or on their own, one read ahead
  of it. `Chunks` is the sequence of reads such an oracle produces, and both
  `Split` methods are proved against it.
*/
module Splitter {
  import opened Wire
  import opened Io

  datatype SplitOpts = SplitOpts(batchSize: int, fileName: Path)

  /** One batch of `FileSplitter`: its number, the file name and its bytes. */
  datatype Batch = Batch(id: int, fileName: Path, content: bytes)

  /** `sizes[k]` is how many bytes the `k`-th read would like to return (it is
      cut to what was asked for and what is left, and is at least one); reads
      beyond the list fill the buffer. `endWithData` says whether the last read
      brings the end of the stream too. */
  datatype ReadOracle = ReadOracle(sizes: seq<nat>, endWithData: bool)

  /** How many bytes the `call`-th read returns when `max` were asked for and
      `remaining` are left. */
  function ReadSize(o: ReadOracle, call: nat, max: nat, remaining: nat): (k: nat)
    requires 1 <= max && 1 <= remaining
    ensures 1 <= k <= max && k <= remaining
    ensures call < |o.sizes| && 1 <= o.sizes[call] <= Min(max, remaining) ==> k == o.sizes[call]
    ensures call >= |o.sizes| ==> k == Min(max, remaining)
  {
    var want := if call < |o.sizes| then o.sizes[call] else max;
    if want < 1 then 1 else if want > Min(max, remaining) then Min(max, remaining) else want
  }

  /** The bytes of `data`, in the pieces successive reads return them. */
  function Chunks(data: bytes, max: nat, o: ReadOracle, call: nat): (cs: seq<bytes>)
    requires 1 <= max
    ensures cs == [] <==> data == []
    decreases |data|
  {
    if data == [] then []
    else
      var k := ReadSize(o, call, max, |data|);
      [data[..k]] + Chunks(data[k..], max, o, call + 1)
  }

  /** The pieces put back together are the stream, and each holds between one
      and `max` bytes. */
  lemma {:induction false} ChunksFacts(data: bytes, max: nat, o: ReadOracle, call: nat)
    requires 1 <= max
    ensures var cs := Chunks(data, max, o, call);
      Flatten(cs) == data && |cs| <= |data| &&
      forall i :: 0 <= i < |cs| ==> 1 <= |cs[i]| <= max
    decreases |data|
  {
    if data != [] {
      var k := ReadSize(o, call, max, |data|);
      ChunksFacts(data[k..], max, o, call + 1);
      assert data == data[..k] + data[k..];
    }
  }

  /** The first read of a non-empty stream, and the reads after it. */
  lemma ChunksUnfold(data: bytes, max: nat, o: ReadOracle, call: nat, k: nat)
    requires 1 <= max && data != [] && k == ReadSize(o, call, max, |data|)
    ensures Chunks(data, max, o, call) == [data[..k]] + Chunks(data[k..], max, o, call + 1)
  {
  }

  function Flatten(cs: seq<bytes>): bytes {
    if cs == [] then [] else cs[0] + Flatten(cs[1..])
  }

  /** The `bufio.Reader` a splitter wraps around its reader: what the reader
      has left, and how many reads were made. */
  class BufReader {
    var src: Source
    var readCalls: nat
    const oracle: ReadOracle

    constructor (rd: Source, oracle: ReadOracle)
      ensures src == rd && readCalls == 0 && this.oracle == oracle
    {
      src := rd;
      readCalls := 0;
      this.oracle := oracle;
    }

    /** `buf.Read(chunk)` with `len(chunk) == max`: the next chunk of the
        stream; once nothing is left, no bytes and the end of the stream. */
    method Read(max: nat) returns (data: bytes, err: Option<Error>)
      requires 1 <= max
      modifies this
      ensures src.fault == old(src.fault) && readCalls == old(readCalls) + 1
      ensures old(src.data) == [] ==> data == [] && err == Some(EndError(src.fault)) && src.data == []
      ensures old(src.data) != [] ==>
        data != [] && old(Chunks(src.data, max, oracle, readCalls)) == [data] + Chunks(src.data, max, oracle, readCalls)
      ensures old(src.data) == data + src.data && |data| <= max
      ensures err.Some? ==> err.value == EndError(src.fault) && src.data == []
      ensures err.Some? && data != [] ==> oracle.endWithData
      ensures err.None? && oracle.endWithData ==> src.data != []
    {
      if src.data == [] {
        data, err := [], Some(EndError(src.fault));
      } else {
        ghost var before := src.data;
        var k := ReadSize(oracle, readCalls, max, |src.data|);
        ChunksUnfold(before, max, oracle, readCalls, k);
        data := src.data[..k];
        err := if k == |src.data| && oracle.endWithData then Some(EndError(src.fault)) else None;
        src := Source(src.data[k..], src.fault);
        assert before == data + src.data;
      }
      readCalls := readCalls + 1;
    }
  }

  lemma {:induction false} FlattenAppend(a: seq<bytes>, b: seq<bytes>)
    ensures Flatten(a + b) == Flatten(a) + Flatten(b)
  {
    if a != [] {
      assert (a + b)[1..] == a[1..] + b;
      FlattenAppend(a[1..], b);
    } else {
      assert a + b == b;
    }
  }

  /** What `FileSplitter` delivers: when the last bytes come together with the
      end of the stream, that read counts as ending the stream and its bytes
      are dropped. */
  function Delivered(cs: seq<bytes>, endWithData: bool): (d: seq<bytes>)
    ensures d <= cs
    ensures |d| == if endWithData && cs != [] then |cs| - 1 else |cs|
  {
    if endWithData && cs != [] then cs[..|cs| - 1] else cs
  }

  /** The concatenated contents of a batch sequence. */
  function Payload(bs: seq<Batch>): bytes {
    if bs == [] then [] else bs[0].content + Payload(bs[1..])
  }

  lemma {:induction false} PayloadIsFlatten(bs: seq<Batch>, cs: seq<bytes>)
    requires |bs| == |cs| && forall k :: 0 <= k < |bs| ==> bs[k].content == cs[k]
    ensures Payload(bs) == Flatten(cs)
  {
    if bs != [] {
      PayloadIsFlatten(bs[1..], cs[1..]);
    }
  }

  /** The batches `FileSplitter` builds from the chunks `cs`: numbered from 1,
      each carrying the file name. */
  function Numbered(cs: seq<bytes>, name: Path): seq<Batch> {
    seq(|cs|, k requires 0 <= k < |cs| => Batch(k + 1, name, cs[k]))
  }

  lemma NumberedFacts(cs: seq<bytes>, name: Path)
    ensures var bs := Numbered(cs, name);
      |bs| == |cs| && forall k :: 0 <= k < |cs| ==> bs[k] == Batch(k + 1, name, cs[k])
  {
  }

  lemma NumberedAppend(cs: seq<bytes>, name: Path, c: bytes)
    ensures Numbered(cs + [c], name) == Numbered(cs, name) + [Batch(|cs| + 1, name, c)]
  {
    assert forall k :: 0 <= k < |cs| ==> (cs + [c])[k] == cs[k];
  }

  class FileSplitter {
    constructor ()
    {
    }

    /** `(sp *FileSplitter).Split`: the batches sent on the channel, in order,
        and the error the producer panics with, if any. Batches are numbered
        1, 2, 3, … and carry the file name and at most `BatchSize` bytes; they
        are exactly the reads that brought no error. Their contents put
        together are a prefix of the stream, and the whole stream when its end
        is reported on its own. */
    method Split(rd: Source, o: ReadOracle, opts: SplitOpts) returns (batches: seq<Batch>, panicked: Option<Error>)
      requires opts.batchSize > 0
      ensures batches == Numbered(Delivered(Chunks(rd.data, opts.batchSize, o, 0), o.endWithData), opts.fileName)
      ensures forall k :: 0 <= k < |batches| ==> 1 <= |batches[k].content| <= opts.batchSize
      ensures panicked == ErrorOf(rd.fault)
      ensures Payload(batches) <= rd.data
      ensures !o.endWithData ==> Payload(batches) == rd.data
      ensures rd.data == [] ==> batches == []
    {
      var max: nat := opts.batchSize;
      ghost var cs := Chunks(rd.data, max, o, 0);
      var buf := new BufReader(rd, o);
      var id := 1;
      ghost var done: seq<bytes> := [];
      batches := [];
      while true
        invariant buf.src.fault == rd.fault && buf.oracle == o
        invariant cs == done + Chunks(buf.src.data, max, o, buf.readCalls)
        invariant id == |done| + 1 && batches == Numbered(done, opts.fileName)
        invariant o.endWithData && done != [] ==> buf.src.data != []
        decreases |buf.src.data|
      {
        ghost var pending := Chunks(buf.src.data, max, o, buf.readCalls);
        var chunk, err := buf.Read(max);
        if err.Some? {
          LastDelivery(cs, done, pending, chunk, o.endWithData);
          panicked := if err == Some(EOF) then None else err;
          assert panicked == ErrorOf(rd.fault);
          break;
        }
        Shift(cs, done, chunk, Chunks(buf.src.data, max, o, buf.readCalls));
        NumberedAppend(done, opts.fileName, chunk);
        batches := batches + [Batch(id, opts.fileName, chunk)];
        done := done + [chunk];
        id := id + 1;
      }
      SplitOutcome(rd.data, o, opts, batches, done);
    }
  }

  /** What the batches `FileSplitter` sent amount to, once the stream has ended. */
  lemma SplitOutcome(data: bytes, o: ReadOracle, opts: SplitOpts, batches: seq<Batch>, done: seq<bytes>)
    requires opts.batchSize > 0
    requires done == Delivered(Chunks(data, opts.batchSize, o, 0), o.endWithData)
    requires batches == Numbered(done, opts.fileName)
    ensures forall k :: 0 <= k < |batches| ==> 1 <= |batches[k].content| <= opts.batchSize
    ensures Payload(batches) <= data
    ensures !o.endWithData ==> Payload(batches) == data
    ensures data == [] ==> batches == []
  {
    NumberedFacts(done, opts.fileName);
    PayloadIsFlatten(batches, done);
    DeliveredFacts(data, opts.batchSize, o);
  }

  lemma Shift(cs: seq<bytes>, done: seq<bytes>, c: bytes, rest: seq<bytes>)
    requires cs == done + ([c] + rest)
    ensures cs == (done + [c]) + rest
  {
  }

  /** The read that brings the end of the stream: `FileSplitter` has then
      delivered all chunks but one that came with it. */
  lemma LastDelivery(cs: seq<bytes>, done: seq<bytes>, pending: seq<bytes>, c: bytes, endWithData: bool)
    requires cs == done + pending
    requires c == [] ==> pending == [] && (endWithData ==> done == [])
    requires c != [] ==> pending == [c] && endWithData
    ensures done == Delivered(cs, endWithData)
  {
    if c != [] {
      assert (done + [c])[..|done|] == done;
    }
  }

  /** The batches `FileSplitter` delivers are non-empty, at most `max` bytes
      each, and together a prefix of the stream, all of it when the end of the
      stream comes on its own. */
  lemma DeliveredFacts(data: bytes, max: nat, o: ReadOracle)
    requires 1 <= max
    ensures var d := Delivered(Chunks(data, max, o, 0), o.endWithData);
      (forall k :: 0 <= k < |d| ==> 1 <= |d[k]| <= max) &&
      Flatten(d) <= data && (!o.endWithData ==> Flatten(d) == data)
  {
    var cs := Chunks(data, max, o, 0);
    var d := Delivered(cs, o.endWithData);
    ChunksFacts(data, max, o, 0);
    assert cs == d + cs[|d|..];
    FlattenAppend(d, cs[|d|..]);
  }

  /** What `FileSplitterV2` does with the chunks `cs`, the `k`-th write being
      call number `base + k` of the writer: the arguments of its writes and the
      error it returns. Every chunk is written, even one that comes with the
      end of the stream; a failed write ends the copy with its error, and
      otherwise the end of the stream decides (nil at `io.EOF`). */
  function CopyRun(cs: seq<bytes>, fault: Option<nat>, failures: map<nat, nat>, base: nat): (r: (seq<bytes>, Option<Error>))
    decreases |cs|
  {
    if cs == [] then ([], ErrorOf(fault))
    else if FaultAt(failures, base).Some? then ([cs[0]], ErrorOf(FaultAt(failures, base)))
    else
      var rest := CopyRun(cs[1..], fault, failures, base + 1);
      ([cs[0]] + rest.0, rest.1)
  }

  class FileSplitterV2 {
    constructor ()
    {
    }

    /** `(sp *FileSplitterV2).Split`: a `BatchSize` of zero or less is
        `io.ErrShortBuffer` before anything is read or written; otherwise the
        chunks are copied to `wr` as `CopyRun` says. */
    method Split(rd: Source, o: ReadOracle, wr: Sink, opts: SplitOpts) returns (err: Option<Error>)
      modifies wr
      ensures opts.batchSize <= 0 ==> err == Some(ShortBuffer) && wr.calls == old(wr.calls)
      ensures opts.batchSize > 0 ==>
        var run := CopyRun(Chunks(rd.data, opts.batchSize, o, 0), rd.fault, wr.failures, |old(wr.calls)|);
        wr.calls == old(wr.calls) + run.0 && err == run.1
    {
      if opts.batchSize <= 0 {
        return Some(ShortBuffer);
      }
      var max: nat := opts.batchSize;
      ghost var base, wf := |wr.calls|, wr.failures;
      ghost var run := CopyRun(Chunks(rd.data, max, o, 0), rd.fault, wf, base);
      var buf := new BufReader(rd, o);
      ghost var done: seq<bytes> := [];
      ghost var todo := Chunks(rd.data, max, o, 0);
      ghost var pos := base;
      assert done + run.0 == run.0;
      err := None;
      while true
        invariant buf.src.fault == rd.fault && buf.oracle == o && wr.failures == wf
        invariant wr.calls == old(wr.calls) + done && pos == |wr.calls|
        invariant todo == Chunks(buf.src.data, max, o, buf.readCalls)
        invariant run == Prepend(done, CopyRun(todo, rd.fault, wf, pos))
        decreases |buf.src.data|
      {
        var chunk, readErr := buf.Read(max);
        ghost var rest := Chunks(buf.src.data, max, o, buf.readCalls);
        if |chunk| > 0 {
          assert todo == [chunk] + rest;
          CopyStep(chunk, rest, rd.fault, wf, pos, run, done);
          var writeErr := wr.Write(chunk);
          assert writeErr == ErrorOf(FaultAt(wf, pos));
          AppendOne(old(wr.calls), done, chunk);
          done, pos := done + [chunk], pos + 1;
          if writeErr.Some? {
            err := writeErr;
            assert run == (done, err);
            break;
          }
          assert run == Prepend(done, CopyRun(rest, rd.fault, wf, pos));
        }
        todo := rest;
        if readErr.Some? {
          CopyEnd(todo, run, done, rd.fault, wf, pos);
          if readErr != Some(EOF) {
            err := readErr;
          }
          assert run == (done, err);
          break;
        }
      }
      assert run == CopyRun(Chunks(rd.data, opts.batchSize, o, 0), rd.fault, wr.failures, |old(wr.calls)|);
      assert wr.calls == old(wr.calls) + run.0 && err == run.1;
    }
  }

  /** The writes `done` already made, ahead of those still to come. */
  function Prepend(done: seq<bytes>, run: (seq<bytes>, Option<Error>)): (seq<bytes>, Option<Error>) {
    (done + run.0, run.1)
  }

  /** One write in terms of `CopyRun`: a failed write ends the run there, a
      successful one moves it on by a chunk. */
  lemma CopyStep(c: bytes, rest: seq<bytes>, fault: Option<nat>, failures: map<nat, nat>, b: nat,
                 run: (seq<bytes>, Option<Error>), done: seq<bytes>)
    requires run == Prepend(done, CopyRun([c] + rest, fault, failures, b))
    ensures FaultAt(failures, b).Some? ==> run == (done + [c], ErrorOf(FaultAt(failures, b)))
    ensures FaultAt(failures, b).None? ==> run == Prepend(done + [c], CopyRun(rest, fault, failures, b + 1))
  {
    assert ([c] + rest)[0] == c && ([c] + rest)[1..] == rest;
    var next := CopyRun(rest, fault, failures, b + 1);
    assert done + ([c] + next.0) == (done + [c]) + next.0;
  }

  /** Once the stream has ended nothing is left to write, and its end decides the error. */
  lemma CopyEnd(todo: seq<bytes>, run: (seq<bytes>, Option<Error>), done: seq<bytes>, fault: Option<nat>, failures: map<nat, nat>, b: nat)
    requires todo == [] && run == Prepend(done, CopyRun(todo, fault, failures, b))
    ensures run == (done, ErrorOf(fault))
  {
    assert done + [] == done;
  }

  lemma AppendOne(a: seq<bytes>, done: seq<bytes>, c: bytes)
    ensures (a + done) + [c] == a + (done + [c])
  {
  }

  lemma {:induction false} CopyRunPrefix(cs: seq<bytes>, fault: Option<nat>, failures: map<nat, nat>, base: nat)
    ensures CopyRun(cs, fault, failures, base).0 <= cs
    decreases |cs|
  {
    if cs != [] && FaultAt(failures, base).None? {
      CopyRunPrefix(cs[1..], fault, failures, base + 1);
      assert cs == [cs[0]] + cs[1..];
    }
  }

  /** `CopyRun` writes the chunks in order, each of them whole, none twice. */
  lemma CopyWritesPrefix(data: bytes, max: nat, o: ReadOracle, fault: Option<nat>, failures: map<nat, nat>, base: nat)
    requires 1 <= max
    ensures var cs := Chunks(data, max, o, 0);
      var w := CopyRun(cs, fault, failures, base).0;
      w <= cs && Flatten(w) <= data && forall i :: 0 <= i < |w| ==> 1 <= |w[i]| <= max
  {
    var cs := Chunks(data, max, o, 0);
    var w := CopyRun(cs, fault, failures, base).0;
    ChunksFacts(data, max, o, 0);
    CopyRunPrefix(cs, fault, failures, base);
    FlattenAppend(w, cs[|w|..]);
    assert cs == w + cs[|w|..];
  }

  /** When no write fails, every chunk is written and the error is the one
      that ended the stream (nil at `io.EOF`). */
  lemma {:induction false} CopyAll(cs: seq<bytes>, fault: Option<nat>, failures: map<nat, nat>, base: nat)
    requires forall k :: base <= k < base + |cs| ==> FaultAt(failures, k).None?
    ensures CopyRun(cs, fault, failures, base) == (cs, ErrorOf(fault))
    decreases |cs|
  {
    if cs != [] {
      CopyAll(cs[1..], fault, failures, base + 1);
      assert [cs[0]] + cs[1..] == cs;
    }
  }

  /** The `i`-th write, failing first, ends the copy with its error and leaves
      the `i` writes before it in place. */
  lemma {:induction false} CopyStopsAtFailedWrite(cs: seq<bytes>, fault: Option<nat>, failures: map<nat, nat>, base: nat, i: nat)
    requires i < |cs| && FaultAt(failures, base + i).Some?
    requires forall k :: base <= k < base + i ==> FaultAt(failures, k).None?
    ensures CopyRun(cs, fault, failures, base) == (cs[..i + 1], ErrorOf(FaultAt(failures, base + i)))
    decreases i
  {
    if i > 0 {
      CopyStopsAtFailedWrite(cs[1..], fault, failures, base + 1, i - 1);
      assert [cs[0]] + cs[1..][..i] == cs[..i + 1];
    } else {
      assert cs[..1] == [cs[0]];
    }
  }

  /** With a writer that never fails, the bytes written are exactly the stream. */
  lemma CopyReproducesStream(data: bytes, max: nat, o: ReadOracle, fault: Option<nat>, failures: map<nat, nat>, base: nat)
    requires 1 <= max
    requires forall k :: base <= k ==> FaultAt(failures, k).None?
    ensures var run := CopyRun(Chunks(data, max, o, 0), fault, failures, base);
      Flatten(run.0) == data && run.1 == ErrorOf(fault)
  {
    CopyAll(Chunks(data, max, o, 0), fault, failures, base);
    ChunksFacts(data, max, o, 0);
  }

  /** Reads that fill the buffer cut `L` bytes into ⌈L / max⌉ chunks: all of
      `max` bytes but the last, which holds the rest. */
  lemma {:induction false} GreedyChunks(data: bytes, max: nat, endWithData: bool, call: nat)
    requires 1 <= max
    ensures var cs := Chunks(data, max, ReadOracle([], endWithData), call);
      (|cs| - 1) * max < |data| <= |cs| * max &&
      forall i :: 0 <= i < |cs| - 1 ==> |cs[i]| == max
    decreases |data|
  {
    if data != [] {
      var o := ReadOracle([], endWithData);
      var k := ReadSize(o, call, max, |data|);
      var rest := Chunks(data[k..], max, o, call + 1);
      ChunksUnfold(data, max, o, call, k);
      GreedyChunks(data[k..], max, endWithData, call + 1);
      MulStep(|rest|, max);
      if |data| > max {
        assert rest != [];
      }
    }
  }

  lemma MulStep(n: int, m: int)
    ensures (n + 1) * m == n * m + m && (n - 1) * m == n * m - m
  {
  }

  /** Seventeen bytes in batches of five. */
  lemma SeventeenByFive(data: bytes)
    requires |data| == 17
    ensures var cs := Chunks(data, 5, ReadOracle([], false), 0);
      |cs| == 4 && |cs[0]| == 5 && |cs[1]| == 5 && |cs[2]| == 5 && |cs[3]| == 2
  {
    GreedyChunks(data, 5, false, 0);
    ChunksFacts(data, 5, ReadOracle([], false), 0);
    var cs := Chunks(data, 5, ReadOracle([], false), 0);
    var c1, c2, c3 := cs[1..], cs[2..], cs[3..];
    assert c1[1..] == c2 && c2[1..] == c3 && c3 == [cs[3]];
    assert |Flatten(c3)| == |cs[3]|;
    assert |Flatten(c2)| == |cs[2]| + |Flatten(c3)|;
    assert |Flatten(c1)| == |cs[1]| + |Flatten(c2)|;
    assert |Flatten(cs)| == |cs[0]| + |Flatten(c1)|;
  }
}
