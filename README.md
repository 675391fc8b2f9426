# ftr — a verified model of the file-transfer core

ftr is a small Go library that sends a file over a connection in batches and
writes it back on the other side. This project models its core in Dafny:

- **Metadata codec**: the per-batch header, in two revisions. `meta.go`
  serializes a little-endian header into a byte slice and decodes it from a
  reader, leaving the reader just after it; `file_meta.go` is the older
  big-endian header, decoded from a byte slice. In both, the header is a
  16-bit rune count, one 4-byte unit per rune, then a 32-bit batch id.
- **Splitters**: `FileSplitter` cuts a stream into numbered batches.
  `FileSplitterV2` copies a stream to a writer in chunks of at most
  `BatchSize` bytes.
- **Receiver**: `Consumer.Consume` decodes one header and hands the rest of
  the stream to `FileCollector.Collect`. `Collect` checks the batch size,
  then creates (or truncates) the destination file and copies into it.
- **Connection pool**: `TcpPool` is a bounded FIFO of connections. It is
  configured by options, filled by `Init`, rotated by `Write` and drained by
  `Close`.

Modules follow the Go files:

- `Wire` holds fixed-width integers, byte orders and the rune codec.
- `Io` holds the error values, a reader as the bytes it has left plus the
  way it ends, `io.ReadFull`, and simulated writers and file systems.
- `Meta`, `FileMeta`, `Splitter`, `Collect`, `Consumer` and `Pool` each model
  one source file.

Parts of the program that change state become classes with `modifies`
clauses. Each such method is proved against a specification function.
The properties the program promises are lemmas about those functions.

The outside world is replaced by values passed in:

- **Reads.** The length of each `bufio.Reader.Read` comes from a `ReadOracle`.
  A reader's end is `None` for `io.EOF`, or `Some(code)` for any other
  error.
- **Writes and dials.** Write and dial outcomes come from maps keyed by call
  number.
- **Files.** The outcome of `os.Create` is a parameter. The file system is a
  `map` from path to contents, plus a log of create, sync and close
  operations.

Behaviour of the code a reader might not expect:

- A path longer than 65535 runes is not rejected. The count silently wraps
  modulo 65536 (`Meta.CountWraps`).
- `FileSplitterV2` writes the raw chunks. It writes no header and no
  terminator.
- A `BatchSize` of zero or less makes `FileSplitter` panic, and
  `FileSplitterV2` returns `io.ErrShortBuffer`.
- The collector does not decode a header. The consumer decodes it and passes
  on the path the header names.
- `file_meta.go` is big-endian.

## Model

| member | source | states |
|---|---|---|
| Wire.U16RoundTrip | meta.go:45-64 | a u16 comes back from its two bytes in either byte order, and two byte pairs that decode to the same value are the same bytes |
| Wire.EncodeU32 | meta.go:70 | the four bytes written for a u32 decode back to it |
| Wire.DecodeU32 | meta.go:36 | four bytes read as a u32: least significant byte first (LE) or most significant first (BE) |
| Wire.ToScalar | meta.go:58 | a decoded unit that is a Unicode scalar value is kept; any other becomes U+FFFD |
| Wire.EncodeRunesUnit | meta.go:67 | the i-th 4-byte unit of an encoded path decodes to the path's i-th scalar value |
| Wire.RunesRoundTrip | meta.go:51-67 | decoding the rune units of a path gives the path back |
| Wire.EncodeRunesAppend | meta.go:67 | encoding a concatenated path is the concatenation of the encodings |
| Wire.EncodeRunesSplit | meta.go:67 | the unit of the k-th scalar value sits between the units before and after it |
| Wire.HeaderLayout | meta.go:61-75 | a header of count, runes and unit is 2 + 4·L + 4 bytes, its first two bytes decode to the count and its last four to the unit |
| Wire.HeaderRunes | meta.go:63-67 | in such a header the unit at offset 2 + 4·i decodes to the i-th scalar value |
| Wire.RuneCount | meta.go:63-64 | the count written is the rune count below 65536 and otherwise wraps: never more than the rune count and congruent to it modulo 65536 |
| Io.ReadFull | meta.go:36 | `binary.Read` of n bytes succeeds if and only if n bytes are left, returning them and leaving the rest; a failed read drains the stream |
| Io.ReadFullPrefix | meta.go:36 | reading n bytes from a stream that starts with those n bytes returns them and leaves the rest |
| Io.ReadFullError | meta.go:45-56 | a read of more bytes than are left fails at the stream's end (`io.EOF` or the reader's error) when none are left, and otherwise with `io.ErrUnexpectedEOF` or the reader's own error |
| Meta.NewMetadata | meta.go:20-25 | the metadata holds the path and batch id of the options |
| Meta.Serialize | meta.go:61-75 | the LE header is 2 + 4·L + 4 bytes long |
| Meta.SerializeLayout | meta.go:61-75 | the LE header's first two bytes are the wrapped rune count, unit i is the i-th rune, the last four bytes are batchID |
| Meta.EmptyPathHeader | meta_test.go:36-48 | an empty path with batchID 123 is exactly `00 00 7B 00 00 00` |
| Meta.ReadCount | meta.go:44-49 | with two bytes present the count is their LE value and exactly they are consumed; an empty stream ending at `io.EOF` is read as count 0; one byte, or an empty stream ending in another error, is an error and drains the stream |
| Meta.ReadRunes | meta.go:51-56 | a successful read of n runes gives n scalar values and, when bytes remain after it, has consumed exactly 4·n bytes |
| Meta.ReadPath | meta.go:43-59 | a path read has fewer than 65536 runes and, when bytes remain after it, has consumed exactly the count and the runes |
| Meta.Deserialize | meta.go:27-41 | on success the header consumed is exactly 2 + 4·L + 4 bytes and the reader holds everything after it |
| Meta.ReadPathPrefix | meta.go:43-59 | a count followed by that many runes is read back as the path, with the bytes after it left unread |
| Meta.DeserializePrefix | meta.go:27-41 | count, runes and a batchID unit decode to that metadata, and the reader is left at the bytes after them |
| Meta.RoundTrip | meta.go:27-75 | for a path of at most 65535 runes, decoding a serialized header followed by any bytes gives the metadata back and leaves exactly those bytes |
| Meta.WrappedLayout | meta.go:61-75 | with 65536 or more runes the header is the wrapped count, the first count-many runes, the next rune, the remaining runes, then batchID |
| Meta.CountWraps | meta.go:63-64 | with 65536 or more runes no error is raised; the reader takes the first count mod 65536 runes as the path and the next rune as batchID |
| Meta.SucceedsIff | meta.go:27-59 | decoding succeeds if and only if at least two bytes are there and as many as the header its count announces |
| Meta.SwallowedEofFails | meta.go:45-56 | after a swallowed `io.EOF` (empty input, or a count with nothing after it) the batchID read fails at the end of the stream |
| Meta.TruncatedRunesFail | meta.go:52-56 | a count whose runes are cut short fails with `io.ErrUnexpectedEOF` (or the reader's own error) |
| Meta.CorruptedHeaderFails | meta_test.go:113-123 | count 5 followed by only the runes "ab" fails with `io.ErrUnexpectedEOF` |
| Meta.SerializeThen | meta.go:61-75 | a header followed by bytes is count, then runes, then batchID, then those bytes |
| FileMeta.NewMeta | file_meta.go:29-34 | the value holds the path and batch id of the options |
| FileMeta.Serialize | file_meta.go:74-88 | the BE header is 2 + 4·L + 4 bytes long |
| FileMeta.SerializeLayout | file_meta.go:74-88 | the BE header's first two bytes are the wrapped rune count, unit i is the i-th rune, the last four bytes are batchID |
| FileMeta.EmptyPathHeader | file_meta_test.go:37-48 | an empty path with batchID 123 is exactly `00 00 00 00 00 7B` |
| FileMeta.ReadCount | file_meta.go:57-62 | with two bytes present the count is their BE value and exactly they are consumed; an empty buffer at `io.EOF` is read as count 0; a single byte is an error |
| FileMeta.ReadRunes | file_meta.go:64-69 | n runes read give a path of n scalar values |
| FileMeta.ReadPath | file_meta.go:56-72 | `readPath` keeps the reader's ending |
| FileMeta.Deserialize | file_meta.go:36-54 | an empty buffer is rejected with "buffer is empty" before any parsing; otherwise a new value or an error, never both |
| FileMeta.DeserializeParts | file_meta.go:40-53 | a count, the runes it announces, a batchID unit and any trailing bytes decode to those runes and that unit |
| FileMeta.SerializeThen | file_meta.go:74-88 | a header followed by bytes is count, then runes, then batchID, then those bytes |
| FileMeta.RoundTrip | file_meta.go:36-54 | for a path of at most 65535 runes, any receiver decodes a serialized header followed by any bytes back to the value written |
| FileMeta.CountWraps | file_meta.go:76-77 | with 65536 or more runes the buffer decodes to the first count mod 65536 runes as the path and the next rune as batchID |
| FileMeta.SucceedsIff | file_meta.go:36-54 | decoding succeeds if and only if at least two bytes are there and as many as the header its count announces |
| FileMeta.PrefixDecides | file_meta.go:40-53 | the result depends only on the header bytes: replacing what follows them, or the receiver, changes nothing |
| FileMeta.TruncatedRunesFail | file_meta.go:64-69 | a count longer than the runes present fails with `io.ErrUnexpectedEOF` |
| FileMeta.CorruptedBufferFails | file_meta_test.go:113-123 | count 5 followed by only the runes "ab" fails with `io.ErrUnexpectedEOF` |
| Splitter.ReadSize | splitter.go:53 | a read returns between 1 and min(asked, left) bytes, as the oracle chooses within those bounds |
| Splitter.Chunks | splitter.go:51-53 | the read pieces are empty exactly when the stream is |
| Splitter.ChunksFacts | splitter.go:52-53 | the pieces concatenated are the stream, and each has 1 to `BatchSize` bytes |
| Splitter.BufReader.Read | splitter.go:47-53 | a read returns the next piece of the stream, or no bytes and the end once it is drained; the reader's error comes only with its last bytes |
| Splitter.Delivered | splitter.go:55-60 | `FileSplitter` delivers the pieces except one that arrives with the end of the stream |
| Splitter.NumberedFacts | splitter.go:62-69 | batch k has id k + 1, the file name and the k-th piece |
| Splitter.FileSplitter.Split | splitter.go:38-73 | the batches are the delivered pieces numbered 1, 2, 3, … with the file name; each has 1 to `BatchSize` bytes; they concatenate to a prefix of the stream, and to all of it when the end comes on its own; empty input gives no batch; a non-EOF read error is the panic |
| Splitter.SplitOutcome | splitter.go:52-69 | numbered delivered pieces are bounded and concatenate to a prefix of the stream, or all of it when its end comes on its own |
| Splitter.DeliveredFacts | splitter.go:55-68 | delivered pieces are bounded and concatenate to a prefix of the stream, or all of it when the end comes on its own |
| Splitter.FileSplitterV2.Split | splitter.go:78-102 | `BatchSize` ≤ 0 is `io.ErrShortBuffer` with nothing written; otherwise the writer receives exactly the writes of `CopyRun`, which are every read piece in order (one that comes with the stream's end included) up to and including the first failed write, and the result is that write's error or, failing none, the stream's end (nil at `io.EOF`) |
| Splitter.CopyRunPrefix | splitter.go:86-92 | the writes are a prefix of the read pieces |
| Splitter.CopyWritesPrefix | splitter.go:84-92 | the writes are whole pieces in stream order, their bytes a prefix of the stream, each of 1 to `BatchSize` bytes |
| Splitter.CopyAll | splitter.go:86-101 | when no write fails every piece is written and the result is the stream's end (nil at `io.EOF`) |
| Splitter.CopyStopsAtFailedWrite | splitter.go:89-91 | the first failing write, number i, ends the copy with its error after exactly i + 1 writes |
| Splitter.CopyReproducesStream | splitter.go:84-101 | with a writer that never fails the bytes written are exactly the stream |
| Splitter.GreedyChunks | splitter.go:52-53 | reads that fill the buffer cut L bytes into ⌈L / max⌉ pieces, all full but the last |
| Splitter.SeventeenByFive | splitter.go:52-53 | an illustrative example of buffer-filling reads: with batch size 5, seventeen bytes become pieces of 5, 5, 5 and 2 bytes |
| Collect.FileCollector.Collect | collect.go:20-40 | the reader, files and file log after the call, and the result, are exactly `CollectSpec` of those before it |
| Collect.ValidatesFirst | collect.go:21-24 | `BatchSize` ≤ 0 is `io.ErrShortBuffer`, and nothing is read, created or logged |
| Collect.CreateFailureReadsNothing | collect.go:26-29 | a failed `os.Create` is returned unchanged, and nothing is read or logged |
| Collect.DestinationIsRemainder | collect.go:26-39 | after a successful create the destination holds exactly what the reader had left, other files are unchanged, and the reader is drained |
| Collect.CopyErrorIsReaderError | collect.go:35-39 | the result is the reader's own error, nil exactly at `io.EOF` |
| Collect.BatchSizeIrrelevant | collect.go:33-35 | any two positive batch sizes give the same outcome |
| Collect.SyncThenCloseOnce | collect.go:30-31 | a created file is logged as created, then synced, then closed, once each, after every earlier entry |
| Consumer.Consumer.NewTcpConsumer | consumer.go:17-21 | the consumer holds the collector it was given |
| Consumer.Consumer.Consume | consumer.go:23-38 | the reader, files, log and result are exactly `ConsumeSpec` of those before the call, and nothing is written to `wr` |
| Consumer.HeaderFailureSkipsCollector | consumer.go:24-27 | a header that does not decode is returned as is, and no file is created or logged |
| Consumer.CollectorGetsRest | consumer.go:29-32 | the collector gets the reader just past the header, `int(batchSize)` and the decoded path |
| Consumer.EndToEnd | consumer.go:23-38 | for `Serialize(m) ++ payload`, the file `m.path` holds exactly the payload and is created, synced and closed; the result is the stream's end |
| Consumer.ZeroBatchSizeAfterHeader | consumer.go:29-32 | a zero batch size is refused after the header was consumed, and the payload is left unread |
| Consumer.CreateFailureLeavesPayload | consumer.go:24-37 | a create failure is returned unchanged after the header, and the payload is left unread |
| Pool.Defaults | tcp_pool.go:34-38 | the defaults are 5 connections, network "tcp" and address ":8080" |
| Pool.LastSizeWins | tcp_pool.go:40-42 | options apply in order: the last size option sets n |
| Pool.DefaultSize | tcp_pool.go:34-42 | without a size option n stays 5 |
| Pool.LastAddressWins | tcp_pool.go:27-42 | the last address option sets the address |
| Pool.DefaultAddress | tcp_pool.go:34-42 | without an address option the address stays ":8080", and the network is always "tcp" |
| Pool.ConfiguredSizePositive | tcp_pool.go:17-25 | options that do not panic leave a positive size |
| Pool.FirstFailure | tcp_pool.go:51-56 | the number of dials that succeed before the first failure is at most n |
| Pool.FirstFailureIsFirst | tcp_pool.go:51-56 | every dial before that number succeeds, and the one at it fails unless all n succeed |
| Pool.FirstFailureStep | tcp_pool.go:51-56 | a failing dial is the first failure; a succeeding one moves the first failure past it |
| Pool.WriteOutcome | tcp_pool.go:68-73 | the byte count is between 0 and len(p); there is an error exactly for a failing write, and always when the count falls short |
| Pool.Dialled | tcp_pool.go:51-56 | the connections from k dials are the k distinct ids in dial order |
| Pool.RotateKeepsConnections | tcp_pool.go:63-66 | taking the front connection and putting it back keeps the multiset and length of the queue and its distinctness |
| Pool.RotationsTurn | tcp_pool.go:62-74 | after k writes the queue has turned by k |
| Pool.FullTurn | tcp_pool.go:62-74 | after as many writes as connections the queue is as it started |
| Pool.DistinctOnce | tcp_pool.go:76-81 | in a queue of distinct connections each one occurs exactly once |
| Pool.TcpPool.NewTcpPool | tcp_pool.go:33-48 | the fields are the defaults with the options applied in order, and the queue is empty with capacity n |
| Pool.TcpPool.Apply | tcp_pool.go:17-31 | a size option sets n, an address option sets the address, nothing else changes |
| Pool.TcpPool.Init | tcp_pool.go:50-60 | the queue holds the connections dialled before the first failure, with no dial after it; the error is that failure's; success if and only if n connections are queued; the queue stays within capacity |
| Pool.TcpPool.Write | tcp_pool.go:62-74 | the front connection writes p and is put back at the end whatever the outcome; the count and error are `conn.Write`'s, unchanged |
| Pool.TcpPool.Close | tcp_pool.go:76-81 | the queue ends empty, size, network and address are unchanged, and the closed connections are the idle ones in queue order, each exactly once |
| Pool.WriteAsd | tcp_pool_test.go:61-68 | writing "asd" through a connection that does not fail returns 3 and no error |

## Left out

- Concurrency. `FileSplitter.Split` runs a goroutine that sends on an
  unbuffered channel. Its result is modelled as the sequence of batches sent
  plus the panic value, so the blocking hand-off is not modelled.
- The pool's channel blocking and fairness under concurrent `Write` calls,
  and the bound on in-flight writes, are not modelled. The model is
  sequential.
- Splitter.FileSplitter.Split: a batch size of zero or less, on which the code
  panics before starting the producer, is a precondition. The producer's
  panic on a read error is returned as `panicked`, and panic recovery is not
  modelled.
- Pool.TcpPool.NewTcpPool: `WithPoolSize` with a size of zero or less panics.
  This is the `NoPanic` precondition, so a panic midway through applying the
  options is not modelled.
- Pool.TcpPool.Write: an empty pool, on which the code blocks until a
  connection is returned, is a precondition.
- Pool.TcpPool.Init: the precondition is an empty queue. On a queue that
  already holds connections, the sequential code would block once the channel
  is full.
- Real I/O is replaced by oracles and recorded calls. This covers `net.Dial`,
  `conn.Write`, `conn.Close`, `os.Create`, `file.Sync`, `file.Close`, and the
  internals of `bufio.Reader` and `io.CopyBuffer`.
- How many bytes `bufio.Reader.Read` returns is the oracle's choice, at
  least one. Whether the last bytes come together with the end of the stream
  is one flag per stream. Zero-byte reads without an error are not modelled.
- Collect.FileCollector.Collect: write errors on the destination file are not
  modelled. Only the reader ends the copy with an error, so the partial file
  left after a copy error holds everything the reader delivered.
- The errors of the deferred `Sync` and `Close` are discarded by the code.
  They appear only as log entries.
- `Serialize` in both revisions returns `(bytes, error)`. Writing to a
  `bytes.Buffer` never fails, so the model returns the bytes alone.
- Paths are sequences of Unicode scalar values. Converting a Go string that
  holds invalid UTF-8 into runes is not modelled. A decoded unit that is not
  a scalar value becomes U+FFFD (`Wire.ToScalar`).
- Go's `int` is assumed to be 64 bits wide. Batch ids, pool sizes and
  `int(batchSize)` in consumer.go:30 are unbounded integers, so the model
  never wraps them. On a platform with a 32-bit `int`, a `uint32` batch size
  of 2³¹ or more would turn negative there and `Collect` would return
  `io.ErrShortBuffer`; the model does not capture that.
- `ErrMetaDeserialize` and `ErrBatchCollect` are declared in consumer.go and
  never used, so they are not modelled.
- The `Collect`, `Splitter`, `SplitterV2`, `Serialize` and `Deserialize`
  interfaces are not modelled. The consumer holds the one implementation of
  `Collect`, `FileCollector`.
- Compile-level inconsistencies between revisions are not reconciled:
  - consumer.go:31 sets `CollectOpts.FilePath`, but collect.go:14 names the
    field `FileName`; the model uses the file name.
  - splitter.go:64-66 builds a `FileMeta` with a `FileName` field, which
    `FileMeta` does not have. The `Batch` declaration is not part of this
    model, which uses `Batch(id, fileName, content)`.
  - meta.go and file_meta.go both declare `readPath`; they are two modules
    here.
- The test and benchmark files are not modelled. A few of their cases appear
  as lemmas: `Meta.EmptyPathHeader`, `Meta.CorruptedHeaderFails`,
  `FileMeta.EmptyPathHeader`, `FileMeta.CorruptedBufferFails` and
  `Pool.WriteAsd`.
