/**
  The parts of Go's `io` package, and of the environment, that the core relies on.

  A `Source` is what an `io.Reader` still has to give: its remaining bytes and
  how it ends once they are gone (`io.EOF`, or some other error code). `ReadFull`
  is `io.ReadFull` as `encoding/binary.Read` uses it. `Reader`, `Sink` and
  `FileSystem` are the caller-owned reader, an `io.Writer` whose results come
  from an oracle, and the destination directory.
*/
module Io {
  import opened Wire

  datatype Option<+T> = None | Some(value: T)

  /** The error values the core returns. `IoError(code)` stands for an error of
      the underlying reader, writer, dialer or file system, passed through. */
  datatype Error =
    | EOF              // io.EOF
    | UnexpectedEOF    // io.ErrUnexpectedEOF
    | ShortBuffer      // io.ErrShortBuffer
    | BufferEmpty      // "deserialize: buffer is empty"
    | IoError(code: nat)

  datatype Result<+T> = Ok(value: T) | Fail(error: Error)

  datatype Source = Source(data: bytes, fault: Option<nat>)

  /** Outcome of a read, together with what the reader has left afterwards. */
  datatype Step<+T> = Step(result: Result<T>, rest: Source)

  /** The error a reader reports once its bytes are exhausted. */
  function EndError(fault: Option<nat>): (e: Error)
    ensures e == EOF <==> fault.None?
  {
    match fault
    case None => EOF
    case Some(c) => IoError(c)
  }

  /** A Go `error` result: nil, or the error with the oracle's code. It is also
      what `io.Copy` reports after draining a reader (nil at `io.EOF`). */
  function ErrorOf(fault: Option<nat>): (e: Option<Error>)
    ensures e.None? <==> fault.None?
    ensures e.Some? ==> e.value == EndError(fault)
  {
    match fault
    case None => None
    case Some(c) => Some(IoError(c))
  }

  /** `io.ReadFull(src, buf)` with `len(buf) == n`: `n` bytes, or `io.EOF` when
      nothing was left, or `io.ErrUnexpectedEOF` when only part was there (a
      reader error replaces either). A short read consumes what was there. */
  function ReadFull(src: Source, n: nat): (r: Step<bytes>)
    ensures r.rest.fault == src.fault
    ensures |r.rest.data| <= |src.data|
    ensures r.result.Ok? <==> n <= |src.data|
    ensures r.result.Ok? ==> |r.result.value| == n && src.data == r.result.value + r.rest.data
    ensures r.result.Fail? ==> r.rest.data == []
  {
    if n <= |src.data| then
      Step(Ok(src.data[..n]), Source(src.data[n..], src.fault))
    else if |src.data| == 0 then
      Step(Fail(EndError(src.fault)), src)
    else
      Step(Fail(if src.fault.None? then UnexpectedEOF else EndError(src.fault)), Source([], src.fault))
  }

  /** Reading from the front of a longer stream yields that front exactly and
      leaves everything behind it unread. */
  lemma ReadFullPrefix(a: bytes, b: bytes, fault: Option<nat>)
    ensures ReadFull(Source(a + b, fault), |a|) == Step(Ok(a), Source(b, fault))
  {
    assert (a + b)[..|a|] == a && (a + b)[|a|..] == b;
  }

  /** Which error a failed `ReadFull` reports. */
  lemma ReadFullError(src: Source, n: nat)
    requires n > |src.data|
    ensures ReadFull(src, n).result.error ==
      if |src.data| == 0 then EndError(src.fault)
      else if src.fault.None? then UnexpectedEOF
      else EndError(src.fault)
  {
  }

  /** A caller-owned `io.Reader`, advanced by every read. */
  class Reader {
    var src: Source

    constructor (src: Source)
      ensures this.src == src
    {
      this.src := src;
    }
  }

  /** The fault an oracle reports for call number `k`: the calls listed in
      `failures` fail with the code given there, all others succeed. */
  function FaultAt(failures: map<nat, nat>, k: nat): (f: Option<nat>)
    ensures f.Some? <==> k in failures
    ensures f.Some? ==> f.value == failures[k]
  {
    if k in failures then Some(failures[k]) else None
  }

  /** An `io.Writer`: it records every `Write` argument, and `failures` says
      which calls, by number, fail. */
  class Sink {
    var calls: seq<bytes>
    const failures: map<nat, nat>

    constructor (failures: map<nat, nat>)
      ensures calls == [] && this.failures == failures
    {
      calls := [];
      this.failures := failures;
    }

    method Write(p: bytes) returns (err: Option<Error>)
      modifies this
      ensures calls == old(calls) + [p]
      ensures err == ErrorOf(FaultAt(failures, |old(calls)|))
    {
      err := ErrorOf(FaultAt(failures, |calls|));
      calls := calls + [p];
    }
  }

  /** The file-system calls the collector makes, in order. */
  datatype FsOp = Created(name: Path) | Synced(name: Path) | Closed(name: Path)

  /** A directory: file contents by name, and the log of file operations. */
  class FileSystem {
    var files: map<Path, bytes>
    var log: seq<FsOp>

    constructor (files: map<Path, bytes>)
      ensures this.files == files && log == []
    {
      this.files := files;
      log := [];
    }

    /** `os.Create`: creates the file, or truncates it when it exists; the
        oracle `fault` says whether the operating system refuses. */
    method Create(name: Path, fault: Option<nat>) returns (err: Option<Error>)
      modifies this
      ensures err == ErrorOf(fault)
      ensures fault.None? ==> files == old(files)[name := []] && log == old(log) + [Created(name)]
      ensures fault.Some? ==> files == old(files) && log == old(log)
    {
      err := ErrorOf(fault);
      if fault.None? {
        files := files[name := []];
        log := log + [Created(name)];
      }
    }

    /** Writes through the handle `os.Create` returned. */
    method Append(name: Path, data: bytes)
      requires name in files
      modifies this
      ensures files == old(files)[name := old(files)[name] + data] && log == old(log)
    {
      files := files[name := files[name] + data];
    }

    method Sync(name: Path)
      modifies this
      ensures files == old(files) && log == old(log) + [Synced(name)]
    {
      log := log + [Synced(name)];
    }

    method Close(name: Path)
      modifies this
      ensures files == old(files) && log == old(log) + [Closed(name)]
    {
      log := log + [Closed(name)];
    }
  }
}
