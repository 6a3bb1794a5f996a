/** The logger object: buffers and counters updated in place, proved against the file layer's values. */
module AsyncLogger {
  import opened Bits
  import opened Bytes
  import opened ItchMessages
  import opened ItchCodec
  import opened LogFile
  import opened LogAccounting
  import opened RingQueue

  const QUEUE_SIZE: nat := 1024 * 1024

  lemma QueueSizeIsPow2()
    ensures SingleBit(QUEUE_SIZE)
  {
    assert Pow2(10) == 1024;
    assert Pow2(20) == 1048576;
    Pow2IsSingleBit(20);
  }

  /** Handing the front of the queue over to the written messages changes nothing as a whole. */
  lemma FrontMoves(done: seq<Message>, was: seq<ParsedMessage>)
    requires was != []
    ensures (done + [was[0].message]) + Messages(was[1..]) == done + Messages(was)
  {
    var m, rest := was[0].message, Messages(was[1..]);
    assert Messages(was) == [m] + rest;
    assert (done + [m]) + rest == done + ([m] + rest);
  }

  /** memcpy, one byte further. */
  lemma SpliceNext(memory: seq<byte>, at: nat, record: seq<byte>, i: nat)
    requires at + |record| <= |memory| && i < |record|
    ensures Splice(memory, at, record[..i + 1]) == Splice(memory, at, record[..i])[at + i := record[i]]
  {
  }

  // ---- What the worker does with a queue that nobody else touches ----

  /** One iteration of the first loop writes the oldest message, or flushes when there is none. */
  function IterationOp(waiting: seq<ParsedMessage>): FileOp {
    if waiting != [] then WriteOp(waiting[0].message) else FlushOp
  }

  /** Some iterations of the first loop, then the second loop until the queue is empty. */
  function Worked(j: Journal, waiting: seq<ParsedMessage>, rounds: nat, device: Device): (r: Journal)
    requires SinkOk(j.sink)
    ensures SinkOk(r.sink)
    decreases |waiting| + rounds
  {
    if waiting == [] && rounds == 0 then j
    else
      var next := Record(j, IterationOp(waiting), device);
      Worked(next, if waiting == [] then [] else waiting[1..], if rounds == 0 then 0 else rounds - 1, device)
  }

  /** A worker that finds the queue empty while the logger runs leaves nothing in the buffer. */
  lemma {:induction false} IdleFlushes(j: Journal, waiting: seq<ParsedMessage>, rounds: nat, device: Device)
    requires SinkOk(j.sink) && rounds > |waiting|
    ensures Worked(j, waiting, rounds, device).sink.offset == 0
    decreases rounds
  {
    var next := Record(j, IterationOp(waiting), device);
    WorkedOnce(j, waiting, rounds, device, next);
    if rounds > 1 {
      IdleFlushes(next, if waiting == [] then [] else waiting[1..], rounds - 1, device);
    } else {
      FlushEmpties(j, device);
      WorkedNone(next, device);
    }
  }

  lemma FlushEmpties(j: Journal, device: Device)
    requires SinkOk(j.sink)
    ensures Record(j, FlushOp, device).sink.offset == 0
  {
  }

  lemma WorkedOnce(j: Journal, waiting: seq<ParsedMessage>, rounds: nat, device: Device, next: Journal)
    requires SinkOk(j.sink) && SinkOk(next.sink) && rounds > 0 && next == Record(j, IterationOp(waiting), device)
    ensures Worked(j, waiting, rounds, device) == Worked(next, if waiting == [] then [] else waiting[1..], rounds - 1, device)
  {
  }

  lemma WorkedNone(j: Journal, device: Device)
    requires SinkOk(j.sink)
    ensures Worked(j, [], 0, device) == j
  {
  }

  class Logger {
    const mode: Mode
    const device: Device             // what the ::write calls will return
    const writeBuffer: array<byte>
    var bufferOffset: nat
    var totalWritten: nat
    var mmapSize: nat
    var file: seq<byte>              // the file, or the memory mapped onto it
    var calls: nat
    var running: bool
    const queue: Ring<ParsedMessage>
    ghost var journal: Journal       // the messages and ::write calls so far

    ghost function View(): Sink
      reads this, writeBuffer
    {
      Sink(mode, file, writeBuffer[..], bufferOffset, totalWritten, mmapSize, calls)
    }

    ghost predicate Valid()
      reads this, writeBuffer, queue, queue.buffer, queue.sequences
    {
      && SinkOk(View())
      && queue.Valid()
      && writeBuffer as object != queue.buffer && writeBuffer as object != queue.sequences
    }

    /** The journal is that of the buffer, the file and the counters. */
    ghost predicate Tracked()
      reads this, writeBuffer, queue, queue.buffer, queue.sequences
    {
      Valid() && journal.sink == View() && JournalInv(device, journal)
    }

    /** The messages written, then those still queued. */
    ghost function Entrusted(): seq<Message>
      requires Valid()
      reads this, writeBuffer, queue, queue.buffer, queue.sequences
    {
      journal.messages + Messages(queue.Contents())
    }

    /** Constructed, and no file opened yet. */
    ghost predicate Unopened()
      reads this, writeBuffer, queue, queue.buffer, queue.sequences
    {
      && writeBuffer.Length == BUFFER_SIZE && bufferOffset == 0 && totalWritten == 0 && calls == 0
      && queue.Valid()
      && writeBuffer as object != queue.buffer && writeBuffer as object != queue.sequences
    }

    constructor (mode: Mode, device: Device)
      ensures Unopened() && !running && this.mode == mode && this.device == device
      ensures queue.Contents() == [] && queue.cap == QUEUE_SIZE == 1048576
      ensures fresh(queue) && fresh(queue.buffer) && fresh(queue.sequences) && fresh(writeBuffer)
    {
      this.mode := mode;
      this.device := device;
      writeBuffer := new byte[BUFFER_SIZE];
      bufferOffset, totalWritten, mmapSize, calls := 0, 0, 0, 0;
      file := [];
      running := false;
      QueueSizeIsPow2();
      queue := new Ring<ParsedMessage>(QUEUE_SIZE);
    }

    /** open_file, when open, ftruncate and mmap succeed */
    method OpenFile()
      requires Unopened()
      modifies this`file, this`mmapSize
      ensures Valid() && View() == Open(mode, writeBuffer[..])
    {
      if mode.Mmap? {
        file, mmapSize := Zeros(INITIAL_MAP), INITIAL_MAP;
      } else {
        file, mmapSize := [], 0;
      }
    }

    /** On a running logger start() does nothing. */
    method Start()
      requires !running ==> Unopened()
      modifies this`file, this`mmapSize, this`journal, this`running
      ensures running
      ensures old(running) ==> View() == old(View()) && journal == old(journal)
      ensures !old(running) ==> Tracked() && View() == Open(mode, writeBuffer[..]) && journal == Journal(View(), [], [])
    {
      if running {
        return;
      }
      OpenFile();
      OpenInv(mode, writeBuffer[..], device);
      journal := Journal(View(), [], []);
      running := true;
    }

    method FlushBuffer()
      requires Valid()
      modifies this`file, this`totalWritten, this`bufferOffset, this`calls
      ensures Valid() && View() == Flush(old(View()), device)
    {
      if bufferOffset == 0 {
        return;
      }
      if mode.Mmap? {
        bufferOffset := 0;
      } else {
        var bytesToWrite := BytesToWrite(mode, bufferOffset);
        var written := Written(device(calls), bytesToWrite);
        calls := calls + 1;
        if written > 0 {
          file := file + writeBuffer[..written];
          totalWritten := totalWritten + bufferOffset;
        }
        bufferOffset := 0;
      }
    }

    method ExpandMmap()
      requires Valid() && mode.Mmap?
      modifies this`file, this`mmapSize
      ensures Valid() && View() == Expand(old(View()))
    {
      var newSize := mmapSize * 2;
      file := file + Zeros(newSize - mmapSize);
      mmapSize := newSize;
    }

    /** memcpy of a record into the write buffer */
    method CopyRecord(record: seq<byte>)
      requires bufferOffset + |record| <= writeBuffer.Length
      modifies writeBuffer
      ensures writeBuffer[..] == Splice(old(writeBuffer[..]), bufferOffset, record)
    {
      for i := 0 to |record|
        invariant writeBuffer[..] == Splice(old(writeBuffer[..]), bufferOffset, record[..i])
      {
        SpliceNext(old(writeBuffer[..]), bufferOffset, record, i);
        writeBuffer[bufferOffset + i] := record[i];
      }
      assert record[..|record|] == record;
    }

    /** write_message into the mapping */
    method WriteMapped(m: Message)
      requires Valid() && mode.Mmap?
      modifies this`file, this`totalWritten, this`mmapSize
      ensures Valid() && View() == Write(old(View()), m, device)
    {
      SerializeSize(m);
      var size := MessageSize(m);
      if totalWritten + size > mmapSize {
        ExpandMmap();
      }
      file := Splice(file, totalWritten, Serialize(m));
      totalWritten := totalWritten + size;
    }

    /** write_message into the buffer */
    method WriteBuffered(m: Message)
      requires Valid() && !mode.Mmap?
      modifies this`file, this`totalWritten, this`bufferOffset, this`calls, writeBuffer
      ensures Valid() && View() == Write(old(View()), m, device)
    {
      SerializeSize(m);
      var size := MessageSize(m);
      if bufferOffset + size > BUFFER_SIZE {
        FlushBuffer();
      }
      CopyRecord(Serialize(m));
      bufferOffset := bufferOffset + size;
    }

    method WriteMessage(msg: ParsedMessage)
      requires Valid()
      modifies this`file, this`totalWritten, this`bufferOffset, this`calls, this`mmapSize, writeBuffer
      ensures Valid() && View() == Write(old(View()), msg.message, device)
    {
      if mode.Mmap? {
        WriteMapped(msg.message);
      } else {
        WriteBuffered(msg.message);
      }
    }

    /** The first `spurious` compare-exchanges fail, here as below. */
    method Log(msg: ParsedMessage, spurious: nat) returns (ok: bool)
      requires Valid()
      modifies queue, queue.buffer, queue.sequences
      ensures Valid() && View() == old(View())
      ensures ok <==> |old(queue.Contents())| < queue.cap
      ensures queue.Contents() == if ok then old(queue.Contents()) + [msg] else old(queue.Contents())
    {
      var passes: nat;
      ok, passes := queue.TryEnqueue(msg, spurious);
    }

    /** One try_dequeue of the worker: the oldest message is written, or the call fails. */
    method WriteNext(msg: ParsedMessage, spurious: nat) returns (ok: bool, next: ParsedMessage)
      requires Valid()
      modifies this`file, this`totalWritten, this`bufferOffset, this`calls, this`mmapSize, writeBuffer
      modifies queue, queue.buffer, queue.sequences
      ensures Valid()
      ensures ok <==> old(queue.Contents()) != []
      ensures ok ==> queue.Contents() == old(queue.Contents())[1..] && View() == Write(old(View()), old(queue.Contents())[0].message, device)
      ensures !ok ==> queue.Contents() == old(queue.Contents()) && View() == old(View())
    {
      var passes: nat;
      ok, next, passes := queue.TryDequeue(msg, spurious);
      if ok {
        WriteMessage(next);
      }
    }

    /** One try_dequeue of the worker, and write_message when it succeeds. */
    method TakeAndWrite(msg: ParsedMessage, spurious: nat) returns (ok: bool, next: ParsedMessage)
      requires Tracked()
      modifies this`file, this`totalWritten, this`bufferOffset, this`calls, this`mmapSize, this`journal, writeBuffer
      modifies queue, queue.buffer, queue.sequences
      ensures Tracked() && Entrusted() == old(Entrusted())
      ensures ok <==> old(queue.Contents()) != []
      ensures queue.Contents() == if ok then old(queue.Contents())[1..] else []
      ensures journal == if ok then Record(old(journal), WriteOp(old(queue.Contents())[0].message), device) else old(journal)
      ensures !ok ==> View() == old(View())
    {
      ghost var was := queue.Contents();
      ok, next := WriteNext(msg, spurious);
      if ok {
        FrontMoves(journal.messages, was);
        RecordKeeps(journal, WriteOp(was[0].message), device);
        journal := Record(journal, WriteOp(was[0].message), device);
      }
    }

    /** One iteration of the worker's first loop: a message is written, or the buffer is flushed. */
    method Iterate(msg: ParsedMessage, spurious: nat) returns (next: ParsedMessage)
      requires Tracked()
      modifies this`file, this`totalWritten, this`bufferOffset, this`calls, this`mmapSize, this`journal, writeBuffer
      modifies queue, queue.buffer, queue.sequences
      ensures Tracked() && Entrusted() == old(Entrusted())
      ensures queue.Contents() == if old(queue.Contents()) == [] then [] else old(queue.Contents())[1..]
      ensures journal == Record(old(journal), IterationOp(old(queue.Contents())), device)
      ensures old(queue.Contents()) == [] ==> bufferOffset == 0 && View() == Flush(old(View()), device)
    {
      var ok;
      ok, next := TakeAndWrite(msg, spurious);
      if !ok {
        FlushBuffer();
        RecordKeeps(journal, FlushOp, device);
        journal := Record(journal, FlushOp, device);
        assert old(journal.messages) + [] == old(journal.messages);
      }
    }

    /** The worker sees running_ set for `rounds` iterations, then drains; nobody logs meanwhile. Its i-th call meets spurious(i) failures. */
    method WorkerLoop(rounds: nat, initial: ParsedMessage, spurious: nat -> nat)
      requires Tracked()
      modifies this`file, this`totalWritten, this`bufferOffset, this`calls, this`mmapSize, this`journal, writeBuffer
      modifies queue, queue.buffer, queue.sequences
      ensures Tracked() && queue.Contents() == [] && journal.messages == old(Entrusted())
      ensures journal == Worked(old(journal), old(queue.Contents()), rounds, device)
    {
      var msg := initial;
      for i := 0 to rounds
        invariant Tracked() && Entrusted() == old(Entrusted())
        invariant Worked(journal, queue.Contents(), rounds - i, device) == Worked(old(journal), old(queue.Contents()), rounds, device)
      {
        msg := Iterate(msg, spurious(i));
      }
      var more, attempt := true, rounds;
      while more
        invariant Tracked() && Entrusted() == old(Entrusted())
        invariant !more ==> queue.Contents() == []
        invariant Worked(journal, queue.Contents(), 0, device) == Worked(old(journal), old(queue.Contents()), rounds, device)
        decreases |queue.Contents()|, more
      {
        more, msg := TakeAndWrite(msg, spurious(attempt));
        attempt := attempt + 1;
      }
      assert Entrusted() == journal.messages + [];
    }

    method CloseFile()
      requires Valid()
      modifies this`file
      ensures View() == Close(old(View()))
    {
      if mode.Mmap? {
        file := file[..totalWritten];
      }
    }

    /**
     stop() with nobody logging: the worker finishes, then the buffer is flushed and the file closed. On a
     stopped logger, as when the destructor calls it again, it does nothing.
     */
    method Stop(rounds: nat, initial: ParsedMessage, spurious: nat -> nat)
      requires running ==> Tracked()
      modifies this, writeBuffer, queue, queue.buffer, queue.sequences
      ensures !running
      ensures !old(running) ==> View() == old(View()) && journal == old(journal)
      ensures old(running) ==>
                && JournalInv(device, journal) && journal.sink.mode == mode && journal.sink.offset == 0
                && journal.messages == old(Entrusted())
                && journal == Record(Worked(old(journal), old(queue.Contents()), rounds, device), FlushOp, device)
                && View() == Close(journal.sink)
    {
      if !running {
        return;
      }
      running := false;
      WorkerLoop(rounds, initial, spurious);
      FlushBuffer();
      RecordKeeps(journal, FlushOp, device);
      journal := Record(journal, FlushOp, device);
      CloseFile();
    }

    /** One log() call, or one iteration of the worker's first loop. */
    method TakeTurn(turn: Turn, msg: ParsedMessage, accepted: seq<ParsedMessage>) returns (next: ParsedMessage, accepted': seq<ParsedMessage>)
      requires Tracked() && Entrusted() == Messages(accepted)
      modifies this`file, this`totalWritten, this`bufferOffset, this`calls, this`mmapSize, this`journal, writeBuffer
      modifies queue, queue.buffer, queue.sequences
      ensures Tracked() && (queue.Contents(), accepted') == ServeOne(queue.cap, old(queue.Contents()), accepted, turn)
      ensures Entrusted() == Messages(accepted')
      ensures journal == TurnJournal(old(journal), old(queue.Contents()), turn, device)
    {
      next, accepted' := msg, accepted;
      match turn
      case LogCall(m, failures) =>
        var ok := Log(m, failures);
        if ok {
          LoggedOne(journal.messages, old(queue.Contents()), accepted, m);
          accepted' := accepted + [m];
        }
      case Iteration(failures) =>
        next := Iterate(msg, failures);
    }

    /** Messages are logged while the worker goes round its first loop, in the order of the turns. */
    method Serve(turns: seq<Turn>, initial: ParsedMessage) returns (accepted: seq<ParsedMessage>)
      requires Tracked() && queue.Contents() == [] && journal.messages == []
      modifies this`file, this`totalWritten, this`bufferOffset, this`calls, this`mmapSize, this`journal, writeBuffer
      modifies queue, queue.buffer, queue.sequences
      ensures Tracked() && (queue.Contents(), accepted) == Served(queue.cap, turns)
      ensures Entrusted() == Messages(accepted)
      ensures journal == ServedJournal(queue.cap, turns, old(journal), device)
    {
      accepted := [];
      var msg := initial;
      for i := 0 to |turns|
        invariant Tracked() && (queue.Contents(), accepted) == Served(queue.cap, turns[..i])
        invariant Entrusted() == Messages(accepted)
        invariant journal == ServedJournal(queue.cap, turns[..i], old(journal), device)
      {
        assert turns[..i + 1][..i] == turns[..i];
        msg, accepted := TakeTurn(turns[i], msg, accepted);
      }
      assert turns[..|turns|] == turns;
    }

    /** The same, up to and including stop() and the destructor's second stop(). */
    method ServeAndStop(turns: seq<Turn>, rounds: nat, initial: ParsedMessage, spurious: nat -> nat) returns (accepted: seq<ParsedMessage>)
      requires Tracked() && running && queue.Contents() == [] && journal.messages == []
      modifies this, writeBuffer, queue, queue.buffer, queue.sequences
      ensures accepted == Served(queue.cap, turns).1
      ensures JournalInv(device, journal) && journal.sink.mode == mode && journal.sink.offset == 0
      ensures journal.messages == Messages(accepted) && View() == Close(journal.sink)
      ensures journal == WholeJournal(queue.cap, turns, rounds, old(journal), device)
    {
      accepted := Serve(turns, initial);
      Stop(rounds, initial, spurious);
      Stop(0, initial, spurious);
    }
  }

  // ---- One thread logs, the worker takes turns ----

  /** One log() call or one iteration of the worker, and the spurious failures it meets. */
  datatype Turn = LogCall(msg: ParsedMessage, spurious: nat) | Iteration(spurious: nat)

  function ServeOne(cap: nat, waiting: seq<ParsedMessage>, accepted: seq<ParsedMessage>, turn: Turn): (seq<ParsedMessage>, seq<ParsedMessage>) {
    match turn
    case LogCall(m, _) => if |waiting| < cap then (waiting + [m], accepted + [m]) else (waiting, accepted)
    case Iteration(_) => if waiting != [] then (waiting[1..], accepted) else (waiting, accepted)
  }

  /** The messages waiting in the queue, and those accepted, after some turns. */
  function Served(cap: nat, turns: seq<Turn>): (r: (seq<ParsedMessage>, seq<ParsedMessage>))
    ensures |r.0| <= cap && |r.0| <= |r.1|
  {
    if turns == [] then ([], [])
    else
      var (waiting, accepted) := Served(cap, turns[..|turns| - 1]);
      ServeOne(cap, waiting, accepted, turns[|turns| - 1])
  }

  function TurnJournal(j: Journal, waiting: seq<ParsedMessage>, turn: Turn, device: Device): (r: Journal)
    requires SinkOk(j.sink)
    ensures SinkOk(r.sink)
  {
    if turn.LogCall? then j else Record(j, IterationOp(waiting), device)
  }

  function ServedJournal(cap: nat, turns: seq<Turn>, j: Journal, device: Device): (r: Journal)
    requires SinkOk(j.sink)
    ensures SinkOk(r.sink)
  {
    if turns == [] then j
    else
      var init := turns[..|turns| - 1];
      TurnJournal(ServedJournal(cap, init, j, device), Served(cap, init).0, turns[|turns| - 1], device)
  }

  /** From start() to the last flush of stop(). */
  function WholeJournal(cap: nat, turns: seq<Turn>, rounds: nat, j: Journal, device: Device): Journal
    requires SinkOk(j.sink)
  {
    Record(Worked(ServedJournal(cap, turns, j, device), Served(cap, turns).0, rounds, device), FlushOp, device)
  }

  function LogCalls(turns: seq<Turn>): seq<ParsedMessage> {
    if turns == [] then []
    else LogCalls(turns[..|turns| - 1]) + (if turns[|turns| - 1].LogCall? then [turns[|turns| - 1].msg] else [])
  }

  /** Up to Capacity messages are all accepted, in order, whatever the worker does meanwhile. */
  lemma {:induction false} ServesAll(cap: nat, turns: seq<Turn>)
    requires |LogCalls(turns)| <= cap
    ensures Served(cap, turns).1 == LogCalls(turns)
  {
    if turns != [] {
      ServesAll(cap, turns[..|turns| - 1]);
    }
  }

  lemma LoggedOne(done: seq<Message>, waiting: seq<ParsedMessage>, accepted: seq<ParsedMessage>, m: ParsedMessage)
    requires done + Messages(waiting) == Messages(accepted)
    ensures done + Messages(waiting + [m]) == Messages(accepted + [m])
  {
    assert Messages(waiting + [m]) == Messages(waiting) + [m.message];
    assert Messages(accepted + [m]) == Messages(accepted) + [m.message];
    assert done + (Messages(waiting) + [m.message]) == (done + Messages(waiting)) + [m.message];
  }

  /**
   Start a logger, log messages while the worker runs, stop it and destroy it: the file holds the records of the
   accepted messages, in order. The journal says how, for every mode and device.
   */
  method LogAll(mode: Mode, device: Device, turns: seq<Turn>, rounds: nat, initial: ParsedMessage, spurious: nat -> nat)
    returns (file: seq<byte>, accepted: seq<ParsedMessage>, ghost buffer: seq<byte>, ghost journal: Journal)
    ensures accepted == Served(QUEUE_SIZE, turns).1
    ensures mode.Mmap? || (mode.Buffered? && AlwaysComplete(device)) ==> file == Stream(Messages(accepted))
    ensures JournalInv(device, journal) && journal.sink.mode == mode && journal.messages == Messages(accepted)
    ensures !mode.Mmap? ==> Payloads(journal.chunks) == Stream(Messages(accepted)) && file == journal.sink.file
    ensures |buffer| == BUFFER_SIZE && journal == WholeJournal(QUEUE_SIZE, turns, rounds, Journal(Open(mode, buffer), [], []), device)
  {
    var logger := new Logger(mode, device);
    logger.Start();
    buffer := logger.writeBuffer[..];
    accepted := logger.ServeAndStop(turns, rounds, initial, spurious);
    journal := logger.journal;
    ClosedFile(device, journal);
    file := logger.file;
  }
}
