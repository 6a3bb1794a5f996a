/**
 One session of the logger as a step machine over the concurrent queue: any number of threads call
 log(), the worker dequeues and writes, and one thread calls stop(). Thread 0 of the queue is the worker.
 */
module LogSession {
  import opened Bits
  import opened Bytes
  import opened QueueProtocol
  import opened QueueInvariant
  import opened QueueDelivery
  import opened ItchMessages
  import opened LogFile
  import opened LogAccounting

  type Log = seq<Event<ParsedMessage>>

  /** Where worker_loop is; `draining` says that it has left its first loop. */
  datatype WorkerPc =
    | CheckRunning
    | Calling(draining: bool)                      // about to call try_dequeue
    | Dequeuing(draining: bool)                    // inside try_dequeue
    | Writing(msg: ParsedMessage, draining: bool)  // try_dequeue returned true
    | Flushing                                     // it returned false in the first loop
    | Done

  /** Where stop() is; at its end, the contents of the closed file. */
  datatype StopPc = NotStopped | Joining | Closing | Stopped(file: seq<byte>)

  /** `trace` is the queue's schedule so far; the journal holds the file layer and its history. */
  datatype System = System(
    queue: Outcome<ParsedMessage>, trace: Schedule<ParsedMessage>, journal: Journal,
    worker: WorkerPc, running: bool, stop: StopPc)

  datatype Move =
    | Client(p: nat, a: Action<ParsedMessage>)  // a step of a thread that calls log() or get_queue_size()
    | Work(spurious: bool)                      // a step of the worker
    | Stop                                      // a step of the thread that calls stop()

  datatype Config = Config(cap: Capacity, mode: Mode, device: Device)

  predicate Live(c: Config, s: System) {
    Shape(c.cap, s.queue.queue) && SinkOk(s.journal.sink)
  }

  function QueueStep(c: Config, s: System, p: nat, a: Action<ParsedMessage>): (r: System)
    requires Live(c, s)
    ensures Live(c, r)
  {
    var (q, e) := Step(c.cap, s.queue.queue, p, a);
    s.(queue := Outcome(q, s.queue.log + [e]), trace := s.trace + [(p, a)])
  }

  /** Where the worker goes on after a step of try_dequeue. */
  function Resume(e: Event<ParsedMessage>, draining: bool): WorkerPc {
    match e
    case DequeueReturned(_, _, msg) => Writing(msg, draining)
    case DequeueFailed(_) => if draining then Done else Flushing
    case _ => Dequeuing(draining)
  }

  function WorkerStep(c: Config, s: System, spurious: bool): (r: System)
    requires Live(c, s)
    ensures Live(c, r)
  {
    match s.worker
    case CheckRunning => s.(worker := Calling(!s.running))
    case Calling(d) => QueueStep(c, s, 0, CallDequeue).(worker := Dequeuing(d))
    case Dequeuing(d) =>
      var next := QueueStep(c, s, 0, if spurious then SpuriousFailure else Run);
      next.(worker := Resume(next.queue.log[|next.queue.log| - 1], d))
    case Writing(msg, d) =>
      s.(journal := Record(s.journal, WriteOp(msg.message), c.device), worker := if d then Calling(true) else CheckRunning)
    case Flushing => s.(journal := Record(s.journal, FlushOp, c.device), worker := CheckRunning)
    case Done => s
  }

  function StopStep(c: Config, s: System): (r: System)
    requires Live(c, s)
    ensures Live(c, r)
  {
    match s.stop
    case NotStopped => s.(running := false, stop := Joining)
    case Joining => if s.worker.Done? then s.(journal := Record(s.journal, FlushOp, c.device), stop := Closing) else s
    case Closing => s.(stop := Stopped(Close(s.journal.sink).file))
    case Stopped(_) => s
  }

  /** Clients are the threads other than the worker; they never dequeue. */
  function Next(c: Config, s: System, m: Move): (r: System)
    requires Live(c, s)
    ensures Live(c, r)
  {
    match m
    case Client(p, a) => if p == 0 || a.CallDequeue? then s else QueueStep(c, s, p, a)
    case Work(spurious) => WorkerStep(c, s, spurious)
    case Stop => StopStep(c, s)
  }

  function Go(c: Config, s: System, moves: seq<Move>): (r: System)
    requires Live(c, s)
    ensures Live(c, r)
  {
    if moves == [] then s else Next(c, Go(c, s, moves[..|moves| - 1]), moves[|moves| - 1])
  }

  /** The state right after start(): the file is open, the worker about to run. */
  ghost predicate Started(c: Config, s: System) {
    && c.cap >= 2
    && Initial(c.cap, s.queue.queue) && |s.queue.queue.threads| >= 1
    && s.queue.log == [] && s.trace == []
    && (exists buffer: seq<byte> :: |buffer| == BUFFER_SIZE && s.journal == Journal(Open(c.mode, buffer), [], []))
    && s.worker == CheckRunning && s.running && s.stop == NotStopped
  }

  // ---- What every session keeps ----

  ghost predicate QueueOk(c: Config, start: Queue<ParsedMessage>, s: System) {
    && Shape(c.cap, start) && s.queue == Exec(c.cap, start, s.trace)
    && OnlyDequeuer(s.trace, 0)
  }

  /** The worker's place in the queue protocol matches its place in worker_loop. */
  ghost predicate WorkerOk(s: System) {
    && |s.queue.queue.threads| >= 1
    && (if s.worker.Dequeuing? then InDequeue(s.queue.queue.threads[0]) else s.queue.queue.threads[0].Idle?)
    && (s.running <==> s.stop.NotStopped?)
    && (s.worker.Done? || ((s.worker.Calling? || s.worker.Dequeuing? || s.worker.Writing?) && s.worker.draining) ==> !s.running)
    && (s.stop.Closing? || s.stop.Stopped? ==> s.worker.Done?)
  }

  /** Messages dequeued and not yet handed to write_message. */
  function InWorkersHands(w: WorkerPc): seq<Message> {
    if w.Writing? then [w.msg.message] else []
  }

  ghost predicate WrittenOk(s: System) {
    s.journal.messages + InWorkersHands(s.worker) == Messages(DeliveredItems(s.queue.log))
  }

  ghost predicate JournalOk(c: Config, s: System) {
    && BytesOk(c, s.journal)
    && (s.stop.Closing? || s.stop.Stopped? ==> s.journal.sink.offset == 0)
    && (s.stop.Stopped? ==> s.stop.file == Close(s.journal.sink).file)
  }

  /** What concerns the queue, the worker and the messages it wrote ... */
  ghost predicate CoreInv(c: Config, start: Queue<ParsedMessage>, s: System) {
    && c.cap >= 2 && Initial(c.cap, start) && Live(c, s)
    && QueueOk(c, start, s) && WorkerOk(s) && WrittenOk(s)
  }

  /** ... and, with it, what concerns the bytes. */
  ghost predicate SessionInv(c: Config, start: Queue<ParsedMessage>, s: System) {
    CoreInv(c, start, s) && JournalOk(c, s)
  }

  lemma TraceGrows(c: Config, start: Queue<ParsedMessage>, s: System, p: nat, a: Action<ParsedMessage>)
    requires Live(c, s) && QueueOk(c, start, s) && (a.CallDequeue? ==> p == 0)
    ensures QueueOk(c, start, QueueStep(c, s, p, a))
  {
    var t := s.trace + [(p, a)];
    assert t[..|t| - 1] == s.trace && t[|t| - 1] == (p, a);
    assert Exec(c.cap, start, t) == QueueStep(c, s, p, a).queue;
  }

  /** What a queue step of thread p means for the worker's thread and the deliveries. */
  ghost predicate StepFacts(c: Config, start: Queue<ParsedMessage>, s: System, r: System, e: Event<ParsedMessage>, p: nat) {
    && Live(c, r) && QueueOk(c, start, r)
    && r == s.(queue := r.queue, trace := r.trace)
    && |r.queue.queue.threads| == |s.queue.queue.threads|
    && (p != 0 && |s.queue.queue.threads| > 0 ==> r.queue.queue.threads[0] == s.queue.queue.threads[0])
    && (p != 0 ==> !e.DequeueReturned?)
    && DeliveredItems(r.queue.log) == DeliveredItems(s.queue.log) + ReturnedItem(e)
  }

  lemma QueueStepFacts(c: Config, start: Queue<ParsedMessage>, s: System, p: nat, a: Action<ParsedMessage>)
    requires c.cap >= 2 && Initial(c.cap, start) && Live(c, s) && QueueOk(c, start, s) && (a.CallDequeue? ==> p == 0)
    ensures var r := QueueStep(c, s, p, a); StepFacts(c, start, s, r, r.queue.log[|r.queue.log| - 1], p)
  {
    TraceGrows(c, start, s, p, a);
    SoleConsumerInOrder(c.cap, start, s.trace, 0);
    RunInv(c.cap, start, s.trace);
    var e := Step(c.cap, s.queue.queue, p, a).1;
    ItemsGrow(s.queue.log, e);
    StepShows(c.cap, s.queue.queue, Claims(s.queue.log), p, a);
  }

  /** A step that leaves the queue alone and hands over what the worker held. */
  lemma LocalKeeps(c: Config, start: Queue<ParsedMessage>, s: System, r: System)
    requires CoreInv(c, start, s) && r.queue == s.queue && r.trace == s.trace && SinkOk(r.journal.sink) && WorkerOk(r)
    requires r.journal.messages + InWorkersHands(r.worker) == s.journal.messages + InWorkersHands(s.worker)
    ensures CoreInv(c, start, r)
  {
  }

  lemma ClientKeeps(c: Config, start: Queue<ParsedMessage>, s: System, r: System, e: Event<ParsedMessage>, p: nat)
    requires CoreInv(c, start, s) && p != 0 && StepFacts(c, start, s, r, e, p)
    ensures CoreInv(c, start, r)
  {
    assert DeliveredItems(s.queue.log) + [] == DeliveredItems(s.queue.log);
  }

  /** One step of try_dequeue by the worker: it returns a message, fails, or goes on. */
  lemma DequeueOutcome(cap: Capacity, q: Queue<ParsedMessage>, spurious: bool)
    requires Shape(cap, q) && |q.threads| >= 1 && InDequeue(q.threads[0])
    ensures var (q', e) := Step(cap, q, 0, if spurious then SpuriousFailure else Run);
            if e.DequeueReturned? || e.DequeueFailed? then q'.threads[0].Idle? else InDequeue(q'.threads[0])
  {
  }

  lemma ResumeWritten(messages: seq<Message>, d: seq<ParsedMessage>, e: Event<ParsedMessage>, draining: bool)
    requires messages == Messages(d)
    ensures messages + InWorkersHands(Resume(e, draining)) == Messages(d + ReturnedItem(e))
  {
    if e.DequeueReturned? {
      assert Messages(d + [e.item]) == Messages(d) + [e.item.message];
    } else {
      assert d + [] == d && messages + [] == messages;
    }
  }

  lemma ResumeWorker(s: System, r: System, e: Event<ParsedMessage>)
    requires WorkerOk(s) && s.worker.Dequeuing? && |r.queue.queue.threads| >= 1
    requires r == s.(queue := r.queue, trace := r.trace, worker := Resume(e, s.worker.draining))
    requires if e.DequeueReturned? || e.DequeueFailed? then r.queue.queue.threads[0].Idle? else InDequeue(r.queue.queue.threads[0])
    ensures WorkerOk(r)
  {
  }

  lemma ResumeKeeps(c: Config, start: Queue<ParsedMessage>, s: System, next: System, e: Event<ParsedMessage>)
    requires CoreInv(c, start, s) && s.worker.Dequeuing? && StepFacts(c, start, s, next, e, 0)
    requires if e.DequeueReturned? || e.DequeueFailed? then next.queue.queue.threads[0].Idle? else InDequeue(next.queue.queue.threads[0])
    ensures CoreInv(c, start, next.(worker := Resume(e, s.worker.draining)))
  {
    assert s.journal.messages + [] == s.journal.messages;
    ResumeWritten(s.journal.messages, DeliveredItems(s.queue.log), e, s.worker.draining);
    ResumeWorker(s, next.(worker := Resume(e, s.worker.draining)), e);
  }

  lemma DequeuingKeeps(c: Config, start: Queue<ParsedMessage>, s: System, spurious: bool)
    requires CoreInv(c, start, s) && s.worker.Dequeuing?
    ensures CoreInv(c, start, WorkerStep(c, s, spurious))
  {
    var a: Action<ParsedMessage> := if spurious then SpuriousFailure else Run;
    QueueStepFacts(c, start, s, 0, a);
    DequeueOutcome(c.cap, s.queue.queue, spurious);
    var next := QueueStep(c, s, 0, a);
    ResumeKeeps(c, start, s, next, next.queue.log[|next.queue.log| - 1]);
  }

  lemma CallingKeeps(c: Config, start: Queue<ParsedMessage>, s: System)
    requires CoreInv(c, start, s) && s.worker.Calling?
    ensures CoreInv(c, start, WorkerStep(c, s, false))
  {
    QueueStepFacts(c, start, s, 0, CallDequeue);
    assert Step(c.cap, s.queue.queue, 0, CallDequeue).1 == DequeueCalled(0);
    assert DeliveredItems(s.queue.log) + [] == DeliveredItems(s.queue.log);
  }

  lemma RecordMessages(j: Journal, op: FileOp, device: Device)
    requires SinkOk(j.sink)
    ensures Record(j, op, device).messages == j.messages + (if op.WriteOp? then [op.m] else [])
    ensures op.FlushOp? ==> Record(j, op, device).messages == j.messages
  {
    assert j.messages + [] == j.messages;
  }

  lemma WritingKeeps(c: Config, start: Queue<ParsedMessage>, s: System)
    requires CoreInv(c, start, s) && (s.worker.Writing? || s.worker.Flushing?)
    ensures CoreInv(c, start, WorkerStep(c, s, false))
  {
    var op := if s.worker.Writing? then WriteOp(s.worker.msg.message) else FlushOp;
    RecordMessages(s.journal, op, c.device);
    var r := WorkerStep(c, s, false);
    assert s.journal.messages + [] == s.journal.messages && r.journal.messages + [] == r.journal.messages;
    LocalKeeps(c, start, s, r);
  }

  lemma WorkerKeeps(c: Config, start: Queue<ParsedMessage>, s: System, spurious: bool)
    requires CoreInv(c, start, s)
    ensures CoreInv(c, start, WorkerStep(c, s, spurious))
  {
    match s.worker
    case CheckRunning => LocalKeeps(c, start, s, WorkerStep(c, s, spurious));
    case Calling(_) => CallingKeeps(c, start, s);
    case Dequeuing(_) => DequeuingKeeps(c, start, s, spurious);
    case Writing(_, _) => WritingKeeps(c, start, s);
    case Flushing => WritingKeeps(c, start, s);
    case Done =>
  }

  /** Outside try_dequeue the worker leaves the queue alone. */
  lemma WorkerLocal(c: Config, s: System, spurious: bool)
    requires Live(c, s) && !s.worker.Calling? && !s.worker.Dequeuing?
    ensures var r := WorkerStep(c, s, spurious);
            && r.queue == s.queue && r.trace == s.trace && r.running == s.running && r.stop == s.stop
            && (r.worker.Done? <==> s.worker.Done?)
  {
  }

  /** A step of stop() leaves the queue and the written messages alone. */
  lemma StopLocal(c: Config, s: System)
    requires Live(c, s) && WorkerOk(s)
    ensures var r := StopStep(c, s);
            r.queue == s.queue && r.trace == s.trace && r.worker == s.worker && r.journal.messages == s.journal.messages && WorkerOk(r)
  {
    if s.stop.Joining? && s.worker.Done? {
      RecordMessages(s.journal, FlushOp, c.device);
    }
  }

  lemma StopKeeps(c: Config, start: Queue<ParsedMessage>, s: System)
    requires CoreInv(c, start, s)
    ensures CoreInv(c, start, StopStep(c, s))
  {
    StopLocal(c, s);
    var r := StopStep(c, s);
    LocalKeeps(c, start, s, r);
  }

  lemma NextKeeps(c: Config, start: Queue<ParsedMessage>, s: System, m: Move)
    requires CoreInv(c, start, s)
    ensures CoreInv(c, start, Next(c, s, m))
  {
    match m
    case Client(p, a) =>
      if p != 0 && !a.CallDequeue? {
        QueueStepFacts(c, start, s, p, a);
        var r := QueueStep(c, s, p, a);
        ClientKeeps(c, start, s, r, r.queue.log[|r.queue.log| - 1], p);
      }
    case Work(spurious) => WorkerKeeps(c, start, s, spurious);
    case Stop => StopKeeps(c, start, s);
  }

  lemma {:induction false} GoKeeps(c: Config, start: Queue<ParsedMessage>, s: System, moves: seq<Move>)
    requires CoreInv(c, start, s)
    ensures CoreInv(c, start, Go(c, s, moves))
  {
    if moves != [] {
      GoKeeps(c, start, s, moves[..|moves| - 1]);
      NextKeeps(c, start, Go(c, s, moves[..|moves| - 1]), moves[|moves| - 1]);
    }
  }

  // ---- The bytes ----

  /** The file layer, for a journal on its own. */
  ghost predicate BytesOk(c: Config, j: Journal) {
    j.sink.mode == c.mode && JournalInv(c.device, j)
  }

  lemma BytesKeep(c: Config, j: Journal, op: FileOp)
    requires BytesOk(c, j)
    ensures BytesOk(c, Record(j, op, c.device)) && (op.FlushOp? ==> Record(j, op, c.device).sink.offset == 0)
  {
    RecordKeeps(j, op, c.device);
  }

  lemma JournalWork(c: Config, s: System, spurious: bool)
    requires Live(c, s) && WorkerOk(s) && JournalOk(c, s)
    ensures JournalOk(c, WorkerStep(c, s, spurious))
  {
    if s.worker.Writing? {
      BytesKeep(c, s.journal, WriteOp(s.worker.msg.message));
    } else if s.worker.Flushing? {
      BytesKeep(c, s.journal, FlushOp);
    }
  }

  lemma JournalStop(c: Config, s: System)
    requires Live(c, s) && WorkerOk(s) && JournalOk(c, s)
    ensures JournalOk(c, StopStep(c, s))
  {
    if s.stop.Joining? && s.worker.Done? {
      BytesKeep(c, s.journal, FlushOp);
    }
  }

  lemma JournalKeeps(c: Config, s: System, m: Move)
    requires Live(c, s) && WorkerOk(s) && JournalOk(c, s)
    ensures JournalOk(c, Next(c, s, m))
  {
    match m
    case Client(p, a) =>
    case Work(spurious) => JournalWork(c, s, spurious);
    case Stop => JournalStop(c, s);
  }

  lemma StartedInv(c: Config, s: System)
    requires Started(c, s)
    ensures SessionInv(c, s.queue.queue, s)
  {
    assert Messages([]) == [];
  }

  lemma {:induction false} SessionKeeps(c: Config, start: Queue<ParsedMessage>, s: System, moves: seq<Move>)
    requires SessionInv(c, start, s)
    ensures SessionInv(c, start, Go(c, s, moves))
  {
    GoKeeps(c, start, s, moves);
    if moves != [] {
      SessionKeeps(c, start, s, moves[..|moves| - 1]);
      JournalKeeps(c, Go(c, s, moves[..|moves| - 1]), moves[|moves| - 1]);
    }
  }
}
