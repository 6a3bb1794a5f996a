/**
 The logger's file layer as values: the write buffer, the file (a byte sequence), the mapping and the
 byte counter. What ::write returns is decided by an arbitrary device.
 */
module LogFile {
  import opened Bits
  import opened Bytes
  import opened ItchMessages
  import opened ItchCodec

  const BUFFER_SIZE: nat := 4096 * 1024
  const ALIGNMENT: nat := 4096
  const INITIAL_MAP: nat := 1024 * 1024 * 1024
  const WORD: nat := 64

  datatype Mode = Mmap | Direct | Buffered

  /** The answer to one ::write: everything, some bytes (possibly none), or an error. */
  datatype Answer = Complete | Short(n: nat) | Failed

  type Device = nat -> Answer

  function Written(a: Answer, requested: nat): (w: int)
    ensures -1 <= w <= requested
  {
    match a
    case Complete => requested
    case Short(n) => if n < requested then n else requested
    case Failed => -1
  }

  /** `calls` counts the ::write calls so far. */
  datatype Sink = Sink(mode: Mode, file: seq<byte>, buffer: seq<byte>, offset: nat, total: nat, mapped: nat, calls: nat)

  predicate SinkOk(s: Sink) {
    && |s.buffer| == BUFFER_SIZE && s.offset <= BUFFER_SIZE
    && (s.mode.Mmap? ==> s.total <= s.mapped == |s.file| && INITIAL_MAP <= s.mapped)
  }

  lemma AlignmentIsPow2()
    ensures SingleBit(ALIGNMENT) && ALIGNMENT == Pow2(12) && ALIGNMENT < Pow2(WORD) && BUFFER_SIZE + ALIGNMENT < Pow2(WORD)
  {
    assert Pow2(12) == 4096;
    Pow2IsSingleBit(12);
    assert Pow2(24) == 16777216;
    Pow2Monotone(24, WORD);
  }

  lemma Rounded(x: nat)
    requires x <= BUFFER_SIZE
    ensures SingleBit(ALIGNMENT) && ALIGNMENT <= Pow2(WORD)
    ensures var n := AlignUp(x, ALIGNMENT, WORD); x <= n <= BUFFER_SIZE && n % ALIGNMENT == 0 && n < x + ALIGNMENT
  {
    AlignmentIsPow2();
    AlignUpBelow(x, ALIGNMENT, WORD, BUFFER_SIZE);
  }

  /** bytes_to_write: in DIRECT mode rounded up to whole blocks */
  function BytesToWrite(mode: Mode, offset: nat): (n: nat)
    requires offset <= BUFFER_SIZE
    ensures offset <= n <= BUFFER_SIZE
    ensures mode.Direct? ==> n % ALIGNMENT == 0 && n < offset + ALIGNMENT
    ensures !mode.Direct? ==> n == offset
  {
    if mode.Direct? then
      Rounded(offset);
      AlignUp(offset, ALIGNMENT, WORD)
    else offset
  }

  function Flush(s: Sink, device: Device): (r: Sink)
    requires SinkOk(s)
    ensures SinkOk(r) && r.offset == 0 && r.mode == s.mode && r.buffer == s.buffer
  {
    if s.offset == 0 then s
    else if s.mode.Mmap? then s.(offset := 0)
    else
      var w := Written(device(s.calls), BytesToWrite(s.mode, s.offset));
      s.(file := s.file + (if w > 0 then s.buffer[..w] else []),
         total := s.total + (if w > 0 then s.offset else 0),
         offset := 0,
         calls := s.calls + 1)
  }

  function Zeros(n: nat): (z: seq<byte>)
    ensures |z| == n && forall i :: 0 <= i < n ==> z[i] == 0
  {
    seq(n, i => 0)
  }

  /** Copy a record into memory at an offset. */
  function Splice(memory: seq<byte>, at: nat, record: seq<byte>): (r: seq<byte>)
    requires at + |record| <= |memory|
    ensures |r| == |memory|
    ensures r[..at + |record|] == memory[..at] + record
    ensures r[at + |record|..] == memory[at + |record|..]
  {
    memory[..at] + record + memory[at + |record|..]
  }

  /** expand_mmap, when ftruncate and mmap succeed */
  function Expand(s: Sink): (r: Sink)
    requires SinkOk(s) && s.mode.Mmap?
    ensures SinkOk(r) && r.mode.Mmap? && r.total == s.total && r.mapped == 2 * s.mapped && s.file <= r.file
  {
    s.(file := s.file + Zeros(s.mapped), mapped := s.mapped * 2)
  }

  /** write_message */
  function Write(s: Sink, m: Message, device: Device): (r: Sink)
    requires SinkOk(s)
    ensures SinkOk(r) && r.mode == s.mode
  {
    SerializeSize(m);
    var size := MessageSize(m);
    if s.mode.Mmap? then
      var s1 := if s.total + size > s.mapped then Expand(s) else s;
      s1.(file := Splice(s1.file, s1.total, Serialize(m)), total := s1.total + size)
    else
      var s1 := if s.offset + size > BUFFER_SIZE then Flush(s, device) else s;
      s1.(buffer := Splice(s1.buffer, s1.offset, Serialize(m)), offset := s1.offset + size)
  }

  /** open_file, when ftruncate and mmap succeed; the buffer holds anything. */
  function Open(mode: Mode, buffer: seq<byte>): (s: Sink)
    requires |buffer| == BUFFER_SIZE
    ensures SinkOk(s) && s.mode == mode
  {
    if mode.Mmap? then Sink(mode, Zeros(INITIAL_MAP), buffer, 0, 0, INITIAL_MAP, 0)
    else Sink(mode, [], buffer, 0, 0, 0, 0)
  }

  /** close_file truncates a mapped file to what was written. */
  function Close(s: Sink): Sink
    requires SinkOk(s)
  {
    if s.mode.Mmap? then s.(file := s.file[..s.total]) else s
  }

  // ---- The journal of a run ----

  /** One ::write call: the buffered bytes, the block padding after them, and how many bytes landed (or a code <= 0). */
  datatype Chunk = Chunk(payload: seq<byte>, padding: seq<byte>, written: int)

  predicate ChunkOk(c: Chunk) {
    c.payload != [] && c.written <= |c.payload| + |c.padding|
  }

  function Landed(c: Chunk): seq<byte>
    requires ChunkOk(c)
  {
    if c.written > 0 then (c.payload + c.padding)[..c.written] else []
  }

  /** The ::write call that Flush makes, if any. */
  function FlushChunk(s: Sink, device: Device): (cs: seq<Chunk>)
    requires SinkOk(s)
    ensures forall c :: c in cs ==> ChunkOk(c)
  {
    if s.offset == 0 || s.mode.Mmap? then []
    else [Chunk(s.buffer[..s.offset], s.buffer[s.offset..BytesToWrite(s.mode, s.offset)], Written(device(s.calls), BytesToWrite(s.mode, s.offset)))]
  }

  datatype FileOp = WriteOp(m: Message) | FlushOp

  datatype Journal = Journal(sink: Sink, messages: seq<Message>, chunks: seq<Chunk>)

  function Apply(s: Sink, op: FileOp, device: Device): (r: Sink)
    requires SinkOk(s)
    ensures SinkOk(r) && r.mode == s.mode
  {
    match op
    case WriteOp(m) => Write(s, m, device)
    case FlushOp => Flush(s, device)
  }

  predicate Flushes(s: Sink, op: FileOp) {
    op.FlushOp? || (!s.mode.Mmap? && s.offset + MessageSize(op.m) > BUFFER_SIZE)
  }

  /** One write_message or flush call, recorded. */
  function Record(j: Journal, op: FileOp, device: Device): (r: Journal)
    requires SinkOk(j.sink)
    ensures SinkOk(r.sink) && r.sink.mode == j.sink.mode
  {
    Journal(Apply(j.sink, op, device),
            j.messages + (if op.WriteOp? then [op.m] else []),
            j.chunks + (if Flushes(j.sink, op) then FlushChunk(j.sink, device) else []))
  }

  /** Any sequence of write_message and flush calls after open_file. */
  function Run(start: Sink, ops: seq<FileOp>, device: Device): (j: Journal)
    requires SinkOk(start)
    ensures SinkOk(j.sink) && j.sink.mode == start.mode
  {
    if ops == [] then Journal(start, [], [])
    else Record(Run(start, ops[..|ops| - 1], device), ops[|ops| - 1], device)
  }

  ghost predicate ChunksOk(cs: seq<Chunk>) {
    forall i :: 0 <= i < |cs| ==> ChunkOk(cs[i])
  }

  function Payloads(cs: seq<Chunk>): seq<byte> {
    if cs == [] then [] else Payloads(cs[..|cs| - 1]) + cs[|cs| - 1].payload
  }

  function OnDisk(cs: seq<Chunk>): seq<byte>
    requires forall i :: 0 <= i < |cs| ==> ChunkOk(cs[i])
  {
    if cs == [] then [] else OnDisk(cs[..|cs| - 1]) + Landed(cs[|cs| - 1])
  }

  /** Payload bytes of the writes that returned a positive count, and of those that did not. */
  function Credited(cs: seq<Chunk>): nat {
    if cs == [] then 0
    else Credited(cs[..|cs| - 1]) + (if cs[|cs| - 1].written > 0 then |cs[|cs| - 1].payload| else 0)
  }

  function Dropped(cs: seq<Chunk>): nat {
    if cs == [] then 0
    else Dropped(cs[..|cs| - 1]) + (if cs[|cs| - 1].written > 0 then 0 else |cs[|cs| - 1].payload|)
  }
}
