/** Whole-run byte accounting of the logger's file layer, in each of its three modes. */
module LogAccounting {
  import opened Options
  import opened Bytes
  import opened ItchMessages
  import opened ItchCodec
  import opened LogFile

  // ---- The buffered modes, for every device ----

  ghost predicate ChunkShape(mode: Mode, c: Chunk) {
    if mode.Direct? then
      (|c.payload| + |c.padding|) % ALIGNMENT == 0 && |c.padding| < ALIGNMENT && |c.payload| + |c.padding| <= BUFFER_SIZE
    else c.padding == []
  }

  /** What was handed over is the chunks' payloads and the buffered rest; the file and the counter follow the chunks. */
  ghost predicate BufferInv(j: Journal) {
    && SinkOk(j.sink) && !j.sink.mode.Mmap?
    && ChunksOk(j.chunks) && (forall i :: 0 <= i < |j.chunks| ==> ChunkShape(j.sink.mode, j.chunks[i]))
    && Stream(j.messages) == Payloads(j.chunks) + j.sink.buffer[..j.sink.offset]
    && j.sink.file == OnDisk(j.chunks)
    && j.sink.total == Credited(j.chunks)
    && j.sink.calls == |j.chunks|
  }

  lemma ChunksGrow(cs: seq<Chunk>, c: Chunk)
    requires ChunksOk(cs) && ChunkOk(c)
    ensures ChunksOk(cs + [c])
    ensures Payloads(cs + [c]) == Payloads(cs) + c.payload
    ensures OnDisk(cs + [c]) == OnDisk(cs) + Landed(c)
    ensures Credited(cs + [c]) == Credited(cs) + (if c.written > 0 then |c.payload| else 0)
    ensures Dropped(cs + [c]) == Dropped(cs) + (if c.written > 0 then 0 else |c.payload|)
  {
    assert (cs + [c])[..|cs + [c]| - 1] == cs;
  }

  /** The chunk of a flush carries the buffered bytes, and lands what the device took of the buffer. */
  lemma FlushedChunk(s: Sink, device: Device)
    requires SinkOk(s) && !s.mode.Mmap? && s.offset > 0
    ensures var c := FlushChunk(s, device)[0]; var r := Flush(s, device);
            && |FlushChunk(s, device)| == 1 && ChunkOk(c) && ChunkShape(s.mode, c)
            && c.payload == s.buffer[..s.offset]
            && r.file == s.file + Landed(c) && r.total == s.total + (if c.written > 0 then |c.payload| else 0)
            && r.calls == s.calls + 1
  {
    var c, n := FlushChunk(s, device)[0], BytesToWrite(s.mode, s.offset);
    assert c.payload + c.padding == s.buffer[..n];
    if c.written > 0 {
      assert s.buffer[..n][..c.written] == s.buffer[..c.written];
    }
  }

  /** One more chunk that carries all that was buffered. */
  lemma ChunkInv(j: Journal, r: Sink, c: Chunk)
    requires BufferInv(j) && ChunkOk(c) && ChunkShape(j.sink.mode, c) && c.payload == j.sink.buffer[..j.sink.offset]
    requires SinkOk(r) && r.mode == j.sink.mode && r.offset == 0 && r.calls == j.sink.calls + 1
    requires r.file == j.sink.file + Landed(c) && r.total == j.sink.total + (if c.written > 0 then |c.payload| else 0)
    ensures BufferInv(Journal(r, j.messages, j.chunks + [c]))
  {
    ChunksGrow(j.chunks, c);
    assert r.buffer[..0] == [];
    assert Payloads(j.chunks + [c]) + [] == Payloads(j.chunks + [c]);
  }

  lemma FlushInv(j: Journal, device: Device)
    requires BufferInv(j)
    ensures BufferInv(Journal(Flush(j.sink, device), j.messages, j.chunks + FlushChunk(j.sink, device)))
  {
    if j.sink.offset == 0 {
      assert j.chunks + [] == j.chunks;
    } else {
      FlushedChunk(j.sink, device);
      var cs := FlushChunk(j.sink, device);
      assert cs == [cs[0]];
      ChunkInv(j, Flush(j.sink, device), cs[0]);
    }
  }

  lemma AppendInv(j: Journal, m: Message)
    requires BufferInv(j) && j.sink.offset + MessageSize(m) <= BUFFER_SIZE
    ensures |Serialize(m)| == MessageSize(m)
    ensures BufferInv(Journal(j.sink.(buffer := Splice(j.sink.buffer, j.sink.offset, Serialize(m)), offset := j.sink.offset + MessageSize(m)),
                              j.messages + [m], j.chunks))
  {
    SerializeSize(m);
    StreamGrows(j.messages, m);
    Associate(Payloads(j.chunks), j.sink.buffer[..j.sink.offset], Serialize(m));
  }

  lemma BufferStep(j: Journal, op: FileOp, device: Device)
    requires BufferInv(j)
    ensures BufferInv(Record(j, op, device))
  {
    assert j.messages + [] == j.messages && j.chunks + [] == j.chunks;
    FlushInv(j, device);
    match op
    case FlushOp =>
    case WriteOp(m) =>
      SerializeSize(m);
      if Flushes(j.sink, op) {
        AppendInv(Journal(Flush(j.sink, device), j.messages, j.chunks + FlushChunk(j.sink, device)), m);
      } else {
        AppendInv(j, m);
      }
  }

  lemma {:induction false} BufferRun(mode: Mode, buffer: seq<byte>, ops: seq<FileOp>, device: Device)
    requires |buffer| == BUFFER_SIZE && !mode.Mmap?
    ensures BufferInv(Run(Open(mode, buffer), ops, device))
  {
    if ops != [] {
      BufferRun(mode, buffer, ops[..|ops| - 1], device);
      BufferStep(Run(Open(mode, buffer), ops[..|ops| - 1], device), ops[|ops| - 1], device);
    }
  }

  lemma {:induction false} PayloadSum(cs: seq<Chunk>)
    ensures |Payloads(cs)| == Credited(cs) + Dropped(cs)
  {
    if cs != [] {
      PayloadSum(cs[..|cs| - 1]);
    }
  }

  /** Whatever ::write returns, the bytes handed over are those counted, those buffered and those of failed flushes. */
  lemma ByteAccounting(mode: Mode, buffer: seq<byte>, ops: seq<FileOp>, device: Device)
    requires |buffer| == BUFFER_SIZE && !mode.Mmap?
    ensures var j := Run(Open(mode, buffer), ops, device);
            |Stream(j.messages)| == j.sink.total + j.sink.offset + Dropped(j.chunks)
  {
    BufferRun(mode, buffer, ops, device);
    PayloadSum(Run(Open(mode, buffer), ops, device).chunks);
  }

  /** No write that returned a positive count was short. */
  ghost predicate NoShortWrite(cs: seq<Chunk>) {
    forall i :: 0 <= i < |cs| && cs[i].written > 0 ==> cs[i].written == |cs[i].payload| + |cs[i].padding|
  }

  lemma {:induction false} DiskLength(cs: seq<Chunk>)
    requires ChunksOk(cs) && Unpadded(cs)
    ensures |OnDisk(cs)| <= Credited(cs)
    ensures |OnDisk(cs)| == Credited(cs) <==> NoShortWrite(cs)
  {
    if cs != [] {
      var n := |cs| - 1;
      DiskLength(cs[..n]);
      assert NoShortWrite(cs) <==> NoShortWrite(cs[..n]) && (cs[n].written > 0 ==> cs[n].written == |cs[n].payload|) by {
        assert forall i :: 0 <= i < n ==> cs[i] == cs[..n][i];
      }
    }
  }

  /** In BUFFERED mode the counter never understates the file, and is exact exactly when no write was short. */
  lemma BufferedCounter(buffer: seq<byte>, ops: seq<FileOp>, device: Device)
    requires |buffer| == BUFFER_SIZE
    ensures var j := Run(Open(Buffered, buffer), ops, device);
            && |j.sink.file| <= j.sink.total
            && (|j.sink.file| == j.sink.total <==> NoShortWrite(j.chunks))
  {
    BufferRun(Buffered, buffer, ops, device);
    DiskLength(Run(Open(Buffered, buffer), ops, device).chunks);
  }

  /** A device that takes one byte of every write. */
  const OneByte: Device := _ => Short(1)

  lemma RunTwo(start: Sink, first: FileOp, second: FileOp, device: Device)
    requires SinkOk(start)
    ensures Run(start, [first, second], device) == Record(Record(Journal(start, [], []), first, device), second, device)
  {
    assert [first, second][..1] == [first] && [first][..0] == [];
    assert Run(start, [first][..0], device) == Journal(start, [], []);
  }

  /** The counter can overstate the file: one record and one flush of which a single byte landed. */
  lemma ShortWriteOvercounts(buffer: seq<byte>, m: Message)
    requires |buffer| == BUFFER_SIZE && !m.Unsupported?
    ensures var j := Run(Open(Buffered, buffer), [WriteOp(m), FlushOp], OneByte);
            |j.sink.file| == 1 && j.sink.total == |Serialize(m)| > 1
  {
    SerializeSize(m);
    RunTwo(Open(Buffered, buffer), WriteOp(m), FlushOp, OneByte);
  }

  // ---- Complete writes ----

  ghost predicate AlwaysComplete(device: Device) {
    forall i :: device(i) == Complete
  }

  ghost predicate AllComplete(cs: seq<Chunk>) {
    forall i :: 0 <= i < |cs| ==> cs[i].written == |cs[i].payload| + |cs[i].padding|
  }

  lemma {:induction false} CompleteRun(start: Sink, ops: seq<FileOp>, device: Device)
    requires SinkOk(start) && AlwaysComplete(device)
    ensures AllComplete(Run(start, ops, device).chunks)
  {
    if ops != [] {
      CompleteRun(start, ops[..|ops| - 1], device);
    }
  }

  ghost predicate Unpadded(cs: seq<Chunk>) {
    forall i :: 0 <= i < |cs| ==> cs[i].padding == []
  }

  /** The file as blocks: each flush's payload and its padding. */
  function Blocks(cs: seq<Chunk>): seq<byte> {
    if cs == [] then [] else Blocks(cs[..|cs| - 1]) + cs[|cs| - 1].payload + cs[|cs| - 1].padding
  }

  lemma {:induction false} CompleteDisk(cs: seq<Chunk>)
    requires ChunksOk(cs) && AllComplete(cs)
    ensures OnDisk(cs) == Blocks(cs) && Credited(cs) == |Payloads(cs)| && Dropped(cs) == 0
    ensures Unpadded(cs) ==> Blocks(cs) == Payloads(cs)
  {
    if cs != [] {
      var n := |cs| - 1;
      CompleteDisk(cs[..n]);
      var c := cs[n];
      assert Landed(c) == c.payload + c.padding;
      Associate(Blocks(cs[..n]), c.payload, c.padding);
      if Unpadded(cs) {
        assert forall i :: 0 <= i < n ==> cs[..n][i].padding == [];
        assert c.padding == [];
      }
    }
  }

  /** Without padding the file is as long as what was flushed exactly when every write was complete. */
  lemma {:induction false} WholeExactly(cs: seq<Chunk>)
    requires ChunksOk(cs) && Unpadded(cs)
    ensures |OnDisk(cs)| <= |Payloads(cs)|
    ensures |OnDisk(cs)| == |Payloads(cs)| <==> AllComplete(cs)
  {
    if cs != [] {
      var n := |cs| - 1;
      WholeExactly(cs[..n]);
      assert ChunkOk(cs[n]) && cs[n].padding == [];
      assert AllComplete(cs) <==> AllComplete(cs[..n]) && cs[n].written == |cs[n].payload| by {
        assert forall i :: 0 <= i < n ==> cs[i] == cs[..n][i];
      }
    }
  }

  /** The blocks are as long as their payloads exactly when no flush was padded. */
  lemma {:induction false} UnpaddedExactly(cs: seq<Chunk>)
    ensures |Payloads(cs)| <= |Blocks(cs)|
    ensures |Payloads(cs)| == |Blocks(cs)| <==> Unpadded(cs)
  {
    if cs != [] {
      var n := |cs| - 1;
      UnpaddedExactly(cs[..n]);
      assert Unpadded(cs) <==> Unpadded(cs[..n]) && cs[n].padding == [] by {
        assert forall i :: 0 <= i < n ==> cs[i] == cs[..n][i];
      }
    }
  }

  /** BUFFERED with complete writes: file and buffer together are exactly the records, and the counter is the file's length. */
  lemma BufferedComplete(buffer: seq<byte>, ops: seq<FileOp>, device: Device)
    requires |buffer| == BUFFER_SIZE && AlwaysComplete(device)
    ensures var j := Run(Open(Buffered, buffer), ops, device);
            && j.sink.file + j.sink.buffer[..j.sink.offset] == Stream(j.messages)
            && j.sink.total == |j.sink.file|
  {
    BufferRun(Buffered, buffer, ops, device);
    CompleteRun(Open(Buffered, buffer), ops, device);
    CompleteDisk(Run(Open(Buffered, buffer), ops, device).chunks);
  }

  lemma AlignedSum(a: nat, b: nat)
    requires a % ALIGNMENT == 0 && b % ALIGNMENT == 0
    ensures (a + b) % ALIGNMENT == 0
  {
  }

  lemma {:induction false} BlocksAligned(cs: seq<Chunk>)
    requires forall i :: 0 <= i < |cs| ==> ChunkShape(Direct, cs[i])
    ensures |Blocks(cs)| % ALIGNMENT == 0
  {
    if cs != [] {
      var n := |cs| - 1;
      BlocksAligned(cs[..n]);
      assert ChunkShape(Direct, cs[n]);
      AlignedSum(|Blocks(cs[..n])|, |cs[n].payload| + |cs[n].padding|);
    }
  }

  /** DIRECT with complete writes: whole blocks; dropping each flush's padding leaves the records; the counter is the payload. */
  lemma DirectComplete(buffer: seq<byte>, ops: seq<FileOp>, device: Device)
    requires |buffer| == BUFFER_SIZE && AlwaysComplete(device)
    ensures var j := Run(Open(Direct, buffer), ops, device);
            && j.sink.file == Blocks(j.chunks) && |j.sink.file| % ALIGNMENT == 0
            && (forall i :: 0 <= i < |j.chunks| ==> ChunkShape(Direct, j.chunks[i]))
            && Payloads(j.chunks) + j.sink.buffer[..j.sink.offset] == Stream(j.messages)
            && j.sink.total == |Payloads(j.chunks)|
  {
    BufferRun(Direct, buffer, ops, device);
    CompleteRun(Open(Direct, buffer), ops, device);
    var j := Run(Open(Direct, buffer), ops, device);
    CompleteDisk(j.chunks);
    BlocksAligned(j.chunks);
  }

  /** A device that takes every write whole. */
  const Whole: Device := _ => Complete

  lemma OnlyMultiple(k: nat)
    requires k % ALIGNMENT == 0 && 0 < k < 2 * ALIGNMENT
    ensures k == ALIGNMENT
  {
  }

  lemma OneBlock(n: nat)
    requires 0 < n <= ALIGNMENT
    ensures BytesToWrite(Direct, n) == ALIGNMENT
  {
    OnlyMultiple(BytesToWrite(Direct, n));
  }

  lemma PaddedRun(buffer: seq<byte>, m: Message)
    requires |buffer| == BUFFER_SIZE && !m.Unsupported?
    ensures var j := Run(Open(Direct, buffer), [WriteOp(m), FlushOp], Whole);
            |j.sink.file| == ALIGNMENT && j.sink.total == |Serialize(m)| < ALIGNMENT
  {
    SerializeSize(m);
    OneBlock(MessageSize(m));
    RunTwo(Open(Direct, buffer), WriteOp(m), FlushOp, Whole);
  }

  /** A padded flush: the file of one record is a whole block, which does not read back as that message. */
  lemma PaddedFlush(buffer: seq<byte>, m: Message)
    requires |buffer| == BUFFER_SIZE && !m.Unsupported?
    ensures var j := Run(Open(Direct, buffer), [WriteOp(m), FlushOp], Whole);
            |j.sink.file| == ALIGNMENT && j.sink.total == |Serialize(m)| < ALIGNMENT && ReadLog(j.sink.file) != Some([m])
  {
    PaddedRun(buffer, m);
    StreamGrows([], m);
    assert [] + [m] == [m];
    ReadExactly(Run(Open(Direct, buffer), [WriteOp(m), FlushOp], Whole).sink.file, [m]);
  }

  // ---- MMAP ----

  ghost predicate MapInv(j: Journal) {
    var s := j.sink;
    && SinkOk(s) && s.mode.Mmap? && s.offset == 0
    && s.file[..s.total] == Stream(j.messages)
    && (s.mapped == INITIAL_MAP || s.mapped < 2 * s.total)
  }

  /** One doubling of the mapping always makes room for the next record. */
  lemma OneDoublingSuffices(s: Sink, m: Message)
    requires SinkOk(s) && s.mode.Mmap?
    ensures s.total + |Serialize(m)| <= Expand(s).mapped
  {
    SerializeSize(m);
  }

  lemma MapStep(j: Journal, op: FileOp, device: Device)
    requires MapInv(j)
    ensures MapInv(Record(j, op, device))
  {
    assert j.messages + [] == j.messages;
    if op.WriteOp? {
      SerializeSize(op.m);
      StreamGrows(j.messages, op.m);
      var s := j.sink;
      var s1 := if s.total + MessageSize(op.m) > s.mapped then Expand(s) else s;
      assert s1.file[..s.total] == s.file[..s.total];
    }
  }

  /** Across any number of remappings the file starts with all records; the mapping is 1 GB or less than twice the records. */
  lemma {:induction false} MapRun(buffer: seq<byte>, ops: seq<FileOp>, device: Device)
    requires |buffer| == BUFFER_SIZE
    ensures var j := Run(Open(Mmap, buffer), ops, device);
            MapInv(j) && (j.sink.mapped == 1024 * 1024 * 1024 || j.sink.mapped < 2 * j.sink.total)
  {
    if ops != [] {
      MapRun(buffer, ops[..|ops| - 1], device);
      MapStep(Run(Open(Mmap, buffer), ops[..|ops| - 1], device), ops[|ops| - 1], device);
    }
  }

  ghost predicate AllZero(s: seq<byte>) {
    forall i :: 0 <= i < |s| ==> s[i] == 0
  }

  /** Beyond the records the mapping holds zeros. */
  ghost predicate ZeroRest(s: Sink) {
    s.total <= |s.file| && AllZero(s.file[s.total..])
  }

  lemma ZeroTail(s: seq<byte>, o: nat, k: nat)
    requires o + k <= |s| && AllZero(s[o..])
    ensures AllZero(s[o + k..])
  {
    assert s[o + k..] == s[o..][k..];
  }

  lemma ZeroExpand(s: Sink)
    requires SinkOk(s) && s.mode.Mmap? && ZeroRest(s)
    ensures ZeroRest(Expand(s))
  {
    assert Expand(s).file[s.total..] == s.file[s.total..] + Zeros(s.mapped);
  }

  lemma ZeroRestWrite(s: Sink, m: Message, device: Device)
    requires SinkOk(s) && s.mode.Mmap? && ZeroRest(s)
    ensures ZeroRest(Write(s, m, device))
  {
    SerializeSize(m);
    ZeroExpand(s);
    var s1 := if s.total + MessageSize(m) > s.mapped then Expand(s) else s;
    ZeroTail(s1.file, s1.total, |Serialize(m)|);
    assert Write(s, m, device).file == Splice(s1.file, s1.total, Serialize(m));
  }

  lemma {:induction false} MapRestZero(buffer: seq<byte>, ops: seq<FileOp>, device: Device)
    requires |buffer| == BUFFER_SIZE
    ensures ZeroRest(Run(Open(Mmap, buffer), ops, device).sink)
  {
    if ops != [] {
      var n := |ops| - 1;
      MapRestZero(buffer, ops[..n], device);
      if ops[n].WriteOp? {
        ZeroRestWrite(Run(Open(Mmap, buffer), ops[..n], device).sink, ops[n].m, device);
      }
    }
  }

  /** close_file leaves exactly the records. */
  lemma MapClosed(buffer: seq<byte>, ops: seq<FileOp>, device: Device)
    requires |buffer| == BUFFER_SIZE
    ensures var j := Run(Open(Mmap, buffer), ops, device);
            Close(j.sink).file == Stream(j.messages) && j.sink.total == |Stream(j.messages)|
  {
    MapRun(buffer, ops, device);
  }

  // ---- All modes ----

  /** What every journal satisfies, whatever the mode and the device. */
  ghost predicate JournalInv(device: Device, j: Journal) {
    && (if j.sink.mode.Mmap? then MapInv(j) else BufferInv(j))
    && (AlwaysComplete(device) ==> AllComplete(j.chunks))
  }

  lemma OpenInv(mode: Mode, buffer: seq<byte>, device: Device)
    requires |buffer| == BUFFER_SIZE
    ensures JournalInv(device, Journal(Open(mode, buffer), [], []))
  {
  }

  lemma RecordKeeps(j: Journal, op: FileOp, device: Device)
    requires JournalInv(device, j)
    ensures JournalInv(device, Record(j, op, device))
    ensures Record(j, op, device).messages == j.messages + (if op.WriteOp? then [op.m] else [])
    ensures op.FlushOp? ==> Record(j, op, device).messages == j.messages && Record(j, op, device).sink.offset == 0
  {
    assert j.messages + [] == j.messages;
    if j.sink.mode.Mmap? {
      MapStep(j, op, device);
    } else {
      BufferStep(j, op, device);
    }
  }

  /** What stop() leaves in the file: its last act before closing was a flush. */
  lemma ClosedFile(device: Device, j: Journal)
    requires JournalInv(device, j) && j.sink.offset == 0
    ensures j.sink.mode.Mmap? || (j.sink.mode.Buffered? && AlwaysComplete(device)) ==> Close(j.sink).file == Stream(j.messages)
    ensures !j.sink.mode.Mmap? ==> Close(j.sink).file == j.sink.file && Payloads(j.chunks) == Stream(j.messages)
  {
    if !j.sink.mode.Mmap? {
      assert Payloads(j.chunks) + [] == Payloads(j.chunks);
      if AlwaysComplete(device) {
        CompleteDisk(j.chunks);
      }
    }
  }
}
