/**
 The write buffer over whole runs: when it is flushed, what each ::write is asked for, and what its padding repeats,
 because the buffer is never cleared.
 */
module LogBuffer {
  import opened Bytes
  import opened ItchMessages
  import opened ItchCodec
  import opened LogFile
  import opened LogAccounting

  // ---- When the buffer is flushed ----

  /** write_message writes to the file only when the record does not fit into what is left of the 4 MB. */
  lemma WritesOnlyWhenFull(s: Sink, m: Message, device: Device)
    requires SinkOk(s) && !s.mode.Mmap?
    ensures var r, n := Write(s, m, device), |Serialize(m)|;
            if s.offset + n <= 4096 * 1024 then
              r.file == s.file && r.total == s.total && r.calls == s.calls && r.offset == s.offset + n
            else r.calls == s.calls + 1 && r.offset == n
  {
    SerializeSize(m);
  }

  /** flush() writes once if anything is buffered. */
  lemma FlushesOnce(s: Sink, device: Device)
    requires SinkOk(s) && !s.mode.Mmap?
    ensures Flush(s, device).calls == s.calls + (if s.offset > 0 then 1 else 0)
  {
  }

  /** A write_message makes a chunk exactly when its record does not fit, and then the chunk is all but 45 bytes of the buffer. */
  lemma ForcedChunk(j: Journal, m: Message, device: Device)
    requires BufferInv(j)
    ensures var r, n := Record(j, WriteOp(m), device), |j.chunks|;
            if j.sink.offset + |Serialize(m)| <= 4096 * 1024 then r.chunks == j.chunks
            else |r.chunks| == n + 1 && r.chunks[..n] == j.chunks && |r.chunks[n].payload| + 46 > 4096 * 1024
  {
    SerializeSize(m);
    assert j.chunks + [] == j.chunks;
  }

  /** The calls of flush() itself, by the idle worker and by stop(). */
  function FlushOps(ops: seq<FileOp>): nat {
    if ops == [] then 0 else FlushOps(ops[..|ops| - 1]) + (if ops[|ops| - 1].FlushOp? then 1 else 0)
  }

  /** Apart from the flush() calls, every ::write takes at least 4194259 bytes of records. */
  lemma {:induction false} CallsBounded(mode: Mode, buffer: seq<byte>, ops: seq<FileOp>, device: Device)
    requires |buffer| == BUFFER_SIZE && !mode.Mmap?
    ensures var j := Run(Open(mode, buffer), ops, device);
            (j.sink.calls - FlushOps(ops)) * 4194259 <= |Payloads(j.chunks)| <= |Stream(j.messages)|
  {
    BufferRun(mode, buffer, ops, device);
    if ops != [] {
      var n := |ops| - 1;
      CallsBounded(mode, buffer, ops[..n], device);
      BufferRun(mode, buffer, ops[..n], device);
      var before := Run(Open(mode, buffer), ops[..n], device);
      CallsStep(before, ops[n], device, FlushOps(ops[..n]));
    }
  }

  lemma CallsStep(j: Journal, op: FileOp, device: Device, flushes: nat)
    requires BufferInv(j) && (j.sink.calls - flushes) * 4194259 <= |Payloads(j.chunks)|
    ensures var r := Record(j, op, device);
            (r.sink.calls - (flushes + (if op.FlushOp? then 1 else 0))) * 4194259 <= |Payloads(r.chunks)|
  {
    BufferStep(j, op, device);
    var r := Record(j, op, device);
    if op.WriteOp? {
      ForcedChunk(j, op.m, device);
      if |r.chunks| > |j.chunks| {
        PayloadsGrow(j.chunks, r.chunks);
      }
    } else {
      FlushesOnce(j.sink, device);
      if |r.chunks| > |j.chunks| {
        PayloadsGrow(j.chunks, r.chunks);
      } else {
        assert r.chunks == j.chunks;
      }
    }
  }

  lemma PayloadsGrow(cs: seq<Chunk>, more: seq<Chunk>)
    requires |more| == |cs| + 1 && more[..|cs|] == cs
    ensures |Payloads(more)| == |Payloads(cs)| + |more[|cs|].payload|
  {
  }

  // ---- What the buffer still holds ----

  /** The buffer once each chunk's payload has been copied to its front; nothing else ever changes it beyond the offset. */
  function Stale(buffer: seq<byte>, cs: seq<Chunk>): (r: seq<byte>)
    ensures |r| == |buffer|
  {
    if cs == [] then buffer
    else
      var before, payload := Stale(buffer, cs[..|cs| - 1]), cs[|cs| - 1].payload;
      if |payload| <= |before| then payload + before[|payload|..] else before
  }

  /** The y-th ::write: its padding is what the buffer held there, and the device answered for the whole of it. */
  ghost predicate Repeats(buffer: seq<byte>, device: Device, cs: seq<Chunk>, y: nat)
    requires y < |cs|
  {
    var c, n := cs[y], |cs[y].payload| + |cs[y].padding|;
    && n <= |buffer| && c.padding == Stale(buffer, cs[..y])[|c.payload|..n]
    && c.written == Written(device(y), n)
  }

  ghost predicate BufferHistory(buffer: seq<byte>, device: Device, j: Journal) {
    && |j.sink.buffer| == |buffer| && j.sink.offset <= |buffer|
    && j.sink.buffer[j.sink.offset..] == Stale(buffer, j.chunks)[j.sink.offset..]
    && forall y :: 0 <= y < |j.chunks| ==> Repeats(buffer, device, j.chunks, y)
  }

  lemma StaleSnoc(buffer: seq<byte>, cs: seq<Chunk>, c: Chunk)
    requires |c.payload| <= |buffer|
    ensures Stale(buffer, cs + [c]) == c.payload + Stale(buffer, cs)[|c.payload|..]
  {
    assert (cs + [c])[..|cs + [c]| - 1] == cs;
  }

  lemma RepeatsSnoc(buffer: seq<byte>, device: Device, cs: seq<Chunk>, c: Chunk)
    requires forall y :: 0 <= y < |cs| ==> Repeats(buffer, device, cs, y)
    requires |c.payload| + |c.padding| <= |buffer| && c.written == Written(device(|cs|), |c.payload| + |c.padding|)
    requires c.padding == Stale(buffer, cs)[|c.payload|..|c.payload| + |c.padding|]
    ensures forall y :: 0 <= y < |cs + [c]| ==> Repeats(buffer, device, cs + [c], y)
  {
    forall y | 0 <= y < |cs + [c]| ensures Repeats(buffer, device, cs + [c], y) {
      assert (cs + [c])[..y] == cs[..y];
      if y == |cs| {
        assert cs[..y] == cs;
      } else {
        assert Repeats(buffer, device, cs, y);
      }
    }
  }

  lemma SameSlice(a: seq<byte>, b: seq<byte>, o: nat, n: nat)
    requires |a| == |b| && o <= n <= |a| && a[o..] == b[o..]
    ensures a[o..n] == b[o..n] && a[n..] == b[n..]
  {
    assert a[o..n] == a[o..][..n - o] && b[o..n] == b[o..][..n - o];
    assert a[n..] == a[o..][n - o..] && b[n..] == b[o..][n - o..];
  }

  /** One more ::write: the front of the buffer was its payload, the bytes after it are still there. */
  lemma ChunkHistory(buffer: seq<byte>, device: Device, j: Journal, c: Chunk, sink: Sink)
    requires BufferHistory(buffer, device, j) && sink.buffer == j.sink.buffer && sink.offset == 0
    requires var o, n := j.sink.offset, |c.payload| + |c.padding|;
             && o <= n <= |buffer| && c.payload == j.sink.buffer[..o] && c.padding == j.sink.buffer[o..n]
             && c.written == Written(device(|j.chunks|), n)
    ensures BufferHistory(buffer, device, Journal(sink, j.messages, j.chunks + [c]))
  {
    var o, n := j.sink.offset, |c.payload| + |c.padding|;
    var stale := Stale(buffer, j.chunks);
    SameSlice(j.sink.buffer, stale, o, n);
    RepeatsSnoc(buffer, device, j.chunks, c);
    StaleSnoc(buffer, j.chunks, c);
    SplitAt(j.sink.buffer, o);
  }

  lemma FlushHistory(buffer: seq<byte>, j: Journal, device: Device)
    requires BufferInv(j) && BufferHistory(buffer, device, j)
    ensures BufferHistory(buffer, device, Journal(Flush(j.sink, device), j.messages, j.chunks + FlushChunk(j.sink, device)))
  {
    if j.sink.offset == 0 {
      assert j.chunks + [] == j.chunks;
    } else {
      var cs := FlushChunk(j.sink, device);
      assert cs == [cs[0]];
      ChunkHistory(buffer, device, j, cs[0], Flush(j.sink, device));
    }
  }

  lemma AppendHistory(buffer: seq<byte>, device: Device, j: Journal, record: seq<byte>, messages: seq<Message>)
    requires BufferHistory(buffer, device, j) && |buffer| == BUFFER_SIZE && j.sink.offset + |record| <= BUFFER_SIZE
    ensures BufferHistory(buffer, device,
                          Journal(j.sink.(buffer := Splice(j.sink.buffer, j.sink.offset, record), offset := j.sink.offset + |record|), messages, j.chunks))
  {
    SameSlice(j.sink.buffer, Stale(buffer, j.chunks), j.sink.offset, j.sink.offset + |record|);
  }

  lemma FullHistory(buffer: seq<byte>, j: Journal, m: Message, device: Device)
    requires BufferInv(j) && BufferHistory(buffer, device, j) && |buffer| == BUFFER_SIZE && Flushes(j.sink, WriteOp(m))
    ensures BufferHistory(buffer, device, Record(j, WriteOp(m), device))
  {
    SerializeSize(m);
    FlushHistory(buffer, j, device);
    var flushed := Journal(Flush(j.sink, device), j.messages, j.chunks + FlushChunk(j.sink, device));
    AppendHistory(buffer, device, flushed, Serialize(m), j.messages + [m]);
  }

  lemma FitHistory(buffer: seq<byte>, j: Journal, m: Message, device: Device)
    requires BufferInv(j) && BufferHistory(buffer, device, j) && |buffer| == BUFFER_SIZE && !Flushes(j.sink, WriteOp(m))
    ensures BufferHistory(buffer, device, Record(j, WriteOp(m), device))
  {
    SerializeSize(m);
    AppendHistory(buffer, device, j, Serialize(m), j.messages + [m]);
    assert j.chunks + [] == j.chunks;
  }

  lemma HistoryStep(buffer: seq<byte>, j: Journal, op: FileOp, device: Device)
    requires BufferInv(j) && BufferHistory(buffer, device, j) && |buffer| == BUFFER_SIZE
    ensures BufferHistory(buffer, device, Record(j, op, device))
  {
    if op.FlushOp? {
      FlushHistory(buffer, j, device);
      assert j.messages + [] == j.messages;
    } else if Flushes(j.sink, op) {
      FullHistory(buffer, j, op.m, device);
    } else {
      FitHistory(buffer, j, op.m, device);
    }
  }

  /** In every run, whatever the device does. */
  lemma {:induction false} HistoryRun(mode: Mode, buffer: seq<byte>, ops: seq<FileOp>, device: Device)
    requires |buffer| == BUFFER_SIZE && !mode.Mmap?
    ensures BufferHistory(buffer, device, Run(Open(mode, buffer), ops, device))
  {
    if ops != [] {
      var n := |ops| - 1;
      HistoryRun(mode, buffer, ops[..n], device);
      BufferRun(mode, buffer, ops[..n], device);
      HistoryStep(buffer, Run(Open(mode, buffer), ops[..n], device), ops[n], device);
    }
  }

  // ---- Byte by byte ----

  /** Offset i of the buffer keeps what chunk x had there until a longer payload comes. */
  lemma {:induction false} StaleAt(buffer: seq<byte>, device: Device, cs: seq<Chunk>, x: nat, y: nat, i: nat)
    requires x < y <= |cs| && Repeats(buffer, device, cs, x) && i < |cs[x].payload| + |cs[x].padding|
    requires forall z :: x < z < y ==> |cs[z].payload| <= i
    ensures i < |buffer| && Stale(buffer, cs[..y])[i] == (cs[x].payload + cs[x].padding)[i]
    decreases y
  {
    assert cs[..y][..y - 1] == cs[..y - 1];
    if y > x + 1 {
      StaleAt(buffer, device, cs, x, y - 1, i);
    }
  }

  /** Before any payload reached it, offset i holds what was in the buffer from the start. */
  lemma {:induction false} StaleFromStart(buffer: seq<byte>, cs: seq<Chunk>, y: nat, i: nat)
    requires y <= |cs| && i < |buffer| && forall z :: 0 <= z < y ==> |cs[z].payload| <= i
    ensures Stale(buffer, cs[..y])[i] == buffer[i]
  {
    if y > 0 {
      assert cs[..y][..y - 1] == cs[..y - 1];
      StaleFromStart(buffer, cs, y - 1, i);
    }
  }

  /** Byte i of the y-th ::write lies in its padding. */
  predicate InPadding(c: Chunk, i: nat) {
    |c.payload| <= i < |c.payload| + |c.padding|
  }

  lemma PaddingIsStale(buffer: seq<byte>, device: Device, cs: seq<Chunk>, y: nat, i: nat)
    requires y < |cs| && Repeats(buffer, device, cs, y) && InPadding(cs[y], i)
    ensures i < |buffer| && cs[y].padding[i - |cs[y].payload|] == Stale(buffer, cs[..y])[i]
  {
  }

  /** The ::write calls of a run. */
  function ChunksOf(mode: Mode, buffer: seq<byte>, ops: seq<FileOp>, device: Device): seq<Chunk>
    requires |buffer| == BUFFER_SIZE
  {
    Run(Open(mode, buffer), ops, device).chunks
  }

  /** Padding repeats the last chunk that reached the offset and that no later record overwrote. */
  lemma PaddingRepeats(mode: Mode, buffer: seq<byte>, ops: seq<FileOp>, device: Device, x: nat, y: nat, i: nat)
    requires |buffer| == BUFFER_SIZE && !mode.Mmap?
    requires var cs := ChunksOf(mode, buffer, ops, device);
             && x < y < |cs| && InPadding(cs[y], i) && i < |cs[x].payload| + |cs[x].padding|
             && forall z :: x < z < y ==> |cs[z].payload| <= i
    ensures var cs := ChunksOf(mode, buffer, ops, device);
            cs[y].padding[i - |cs[y].payload|] == (cs[x].payload + cs[x].padding)[i]
  {
    HistoryRun(mode, buffer, ops, device);
    var cs := ChunksOf(mode, buffer, ops, device);
    PaddingIsStale(buffer, device, cs, y, i);
    StaleAt(buffer, device, cs, x, y, i);
  }

  /** Where no payload has been yet, padding is what the buffer held when the file was opened. */
  lemma PaddingFromStart(mode: Mode, buffer: seq<byte>, ops: seq<FileOp>, device: Device, y: nat, i: nat)
    requires |buffer| == BUFFER_SIZE && !mode.Mmap?
    requires var cs := ChunksOf(mode, buffer, ops, device); y < |cs| && InPadding(cs[y], i) && forall z :: 0 <= z < y ==> |cs[z].payload| <= i
    ensures var cs := ChunksOf(mode, buffer, ops, device); i < |buffer| && cs[y].padding[i - |cs[y].payload|] == buffer[i]
  {
    HistoryRun(mode, buffer, ops, device);
    var cs := ChunksOf(mode, buffer, ops, device);
    PaddingIsStale(buffer, device, cs, y, i);
    StaleFromStart(buffer, cs, y, i);
  }

  // ---- A record that the file holds twice ----

  lemma FitsWithoutFlush(s: Sink, m: Message, device: Device)
    requires SinkOk(s) && !s.mode.Mmap? && s.offset + 46 <= BUFFER_SIZE
    ensures |Serialize(m)| <= 46
    ensures Write(s, m, device) == s.(buffer := Splice(s.buffer, s.offset, Serialize(m)), offset := s.offset + |Serialize(m)|)
  {
    SerializeSize(m);
  }

  lemma WholeBlock(s: Sink)
    requires SinkOk(s) && s.mode.Direct? && 0 < s.offset <= 4096
    ensures var r := Flush(s, Whole); r.file == s.file + s.buffer[..4096] && r.buffer == s.buffer && r.offset == 0 && r.mode == s.mode
  {
    OneBlock(s.offset);
  }

  lemma RunSnoc(start: Sink, ops: seq<FileOp>, op: FileOp, device: Device)
    requires SinkOk(start)
    ensures Run(start, ops + [op], device).sink == Apply(Run(start, ops, device).sink, op, device)
  {
    assert (ops + [op])[..|ops + [op]| - 1] == ops;
  }

  /** Two records, a flush, a record no longer than the first, a flush. */
  function TwoFlushes(a: Message, b: Message, c: Message): seq<FileOp> {
    [WriteOp(a), WriteOp(b)] + [FlushOp] + [WriteOp(c)] + [FlushOp]
  }

  /** Records fill the buffer from the front. */
  lemma Buffers(s: Sink, m: Message, held: seq<byte>) returns (r: Sink)
    requires SinkOk(s) && s.mode.Direct? && |held| == s.offset <= 46 && s.buffer[..s.offset] == held
    ensures r == Write(s, m, Whole) && SinkOk(r) && r.mode.Direct? && r.file == s.file
    ensures |Serialize(m)| <= 46 && r.offset == s.offset + |Serialize(m)| && r.buffer[..r.offset] == held + Serialize(m)
    ensures |r.buffer| == |s.buffer| && r.buffer[r.offset..] == s.buffer[r.offset..]
  {
    FitsWithoutFlush(s, m, Whole);
    r := Write(s, m, Whole);
  }

  /** The sink after the records a and b: they stand at the front of the buffer. */
  lemma TwoBuffered(buffer: seq<byte>, a: Message, b: Message) returns (s: Sink)
    requires |buffer| == BUFFER_SIZE && !a.Unsupported?
    ensures s == Run(Open(Direct, buffer), [WriteOp(a), WriteOp(b)], Whole).sink && SinkOk(s) && s.mode.Direct? && s.file == []
    ensures |Serialize(a)| + |Serialize(b)| == s.offset <= 92 && 0 < s.offset && s.buffer[..s.offset] == Serialize(a) + Serialize(b)
  {
    var s0 := Open(Direct, buffer);
    RunTwo(s0, WriteOp(a), WriteOp(b), Whole);
    SerializeSize(a);
    var s1 := Buffers(s0, a, []);
    assert [] + Serialize(a) == Serialize(a);
    s := Buffers(s1, b, Serialize(a));
  }

  /** The record c at the front of the buffer ... */
  lemma WriteFront(s: Sink, c: Message) returns (r: Sink)
    requires SinkOk(s) && s.mode.Direct? && s.offset == 0 && !c.Unsupported?
    ensures r == Write(s, c, Whole) && r.mode.Direct? && r.file == s.file && 0 < r.offset == |Serialize(c)| <= 46
    ensures r.buffer == Serialize(c) + s.buffer[|Serialize(c)|..]
  {
    SerializeSize(c);
    r := Buffers(s, c, []);
    assert [] + Serialize(c) == Serialize(c);
    SplitAt(r.buffer, r.offset);
  }

  /** ... and a flush. */
  lemma WriteThenFlush(s: Sink, c: Message) returns (r: Sink)
    requires SinkOk(s) && s.mode.Direct? && s.offset == 0 && !c.Unsupported?
    ensures r == Flush(Write(s, c, Whole), Whole) && |Serialize(c)| <= 46
    ensures r.file == s.file + (Serialize(c) + s.buffer[|Serialize(c)|..])[..4096]
  {
    var written := WriteFront(s, c);
    WholeBlock(written);
    r := Flush(written, Whole);
  }

  lemma RunThree(start: Sink, ops: seq<FileOp>, x: FileOp, y: FileOp, z: FileOp, device: Device)
    requires SinkOk(start)
    ensures Run(start, ops + [x] + [y] + [z], device).sink == Apply(Apply(Apply(Run(start, ops, device).sink, x, device), y, device), z, device)
  {
    RunSnoc(start, ops, x, device);
    RunSnoc(start, ops + [x], y, device);
    RunSnoc(start, ops + [x] + [y], z, device);
  }

  lemma ApplyThree(s: Sink, m: Message, device: Device)
    requires SinkOk(s)
    ensures Apply(Apply(Apply(s, FlushOp, device), WriteOp(m), device), FlushOp, device) == Flush(Write(Flush(s, device), m, device), device)
  {
  }

  lemma RunTwoFlushes(start: Sink, a: Message, b: Message, c: Message) returns (s: Sink)
    requires SinkOk(start)
    ensures s == Run(start, [WriteOp(a), WriteOp(b)], Whole).sink
    ensures Run(start, TwoFlushes(a, b, c), Whole).sink == Flush(Write(Flush(s, Whole), c, Whole), Whole)
  {
    s := Run(start, [WriteOp(a), WriteOp(b)], Whole).sink;
    RunThree(start, [WriteOp(a), WriteOp(b)], FlushOp, WriteOp(c), FlushOp, Whole);
    ApplyThree(s, c, Whole);
  }

  /** Two records, a flush, a record no longer than the first: the second block repeats the second record of the first. */
  lemma TwoBlocks(buffer: seq<byte>, a: Message, b: Message, c: Message) returns (held: seq<byte>)
    requires |buffer| == BUFFER_SIZE && !a.Unsupported? && !c.Unsupported?
    ensures |held| == BUFFER_SIZE && |Serialize(a)| + |Serialize(b)| <= 4096 && |Serialize(c)| <= 4096
    ensures held[..|Serialize(a)| + |Serialize(b)|] == Serialize(a) + Serialize(b)
    ensures Run(Open(Direct, buffer), TwoFlushes(a, b, c), Whole).sink.file
         == held[..4096] + (Serialize(c) + held[|Serialize(c)|..])[..4096]
  {
    var s := TwoBuffered(buffer, a, b);
    var s' := RunTwoFlushes(Open(Direct, buffer), a, b, c);
    WholeBlock(s);
    var r := WriteThenFlush(Flush(s, Whole), c);
    held := s.buffer;
    assert [] + held[..4096] == held[..4096];
  }

  /** The file holds b's record twice although it was accepted once: the buffer is never cleared. */
  lemma RecordTwice(buffer: seq<byte>, a: Message, b: Message, c: Message)
    requires |buffer| == BUFFER_SIZE && !a.Unsupported? && !c.Unsupported? && |Serialize(c)| <= |Serialize(a)|
    ensures var file, n, m := Run(Open(Direct, buffer), TwoFlushes(a, b, c), Whole).sink.file, |Serialize(a)|, |Serialize(b)|;
            && |file| == 8192 && n + m <= 4096
            && file[n..n + m] == Serialize(b) && file[4096 + n..4096 + n + m] == Serialize(b)
  {
    var held := TwoBlocks(buffer, a, b, c);
    Repeated(held, Serialize(a), Serialize(b), Serialize(c));
  }

  /** Slices of the two halves of a sequence. */
  lemma HalfSlices(x: seq<byte>, y: seq<byte>, o: nat, n: nat)
    requires o <= n <= |x| && n <= |y|
    ensures (x + y)[o..n] == x[o..n] && (x + y)[|x| + o..|x| + n] == y[o..n]
  {
  }

  lemma PrefixSlice(x: seq<byte>, k: nat, o: nat, n: nat)
    requires o <= n <= k <= |x|
    ensures x[..k][o..n] == x[o..n]
  {
  }

  lemma Repeated(held: seq<byte>, a: seq<byte>, b: seq<byte>, c: seq<byte>)
    requires |a| + |b| <= 4096 <= |held| && |c| <= |a| && held[..|a| + |b|] == a + b
    ensures var n, m := |a|, |b|; var file := held[..4096] + (c + held[|c|..])[..4096];
            |file| == 8192 && file[n..n + m] == b && file[4096 + n..4096 + n + m] == b
  {
    var n, m := |a|, |b|;
    var again := c + held[|c|..];
    PrefixSlice(held, n + m, n, n + m);
    assert held[n..n + m] == b;
    assert again[n..n + m] == held[n..n + m];
    PrefixSlice(held, 4096, n, n + m);
    PrefixSlice(again, 4096, n, n + m);
    HalfSlices(held[..4096], again[..4096], n, n + m);
  }
}
