/**
 What the worker does while the logger runs: every accepted message is written within a computed number of its steps,
 and once the queue is empty it hands everything it has buffered to the file.
 */
module LogLiveness {
  import opened Bits
  import opened QueueProtocol
  import opened QueueInvariant
  import opened QueueSafety
  import opened QueueDelivery
  import opened ItchMessages
  import opened ItchCodec
  import opened LogFile
  import opened LogAccounting
  import opened LogSession
  import opened LogGuarantees
  import opened LogDrain
  import opened LogAccepted

  // ---- How far the worker is from having written the tickets below k ----

  /** Steps the worker needs at most until it takes the next ticket below k, or has flushed when there is none. */
  function ServeRank(s: System, k: nat): nat {
    match s.worker
    case CheckRunning => 11
    case Calling(_) => 10
    case Dequeuing(_) => if |s.queue.queue.threads| == 0 then 0 else DequeueRank(s.queue.queue.threads[0], s.queue.queue.tail)
    case Writing(_, _) => 23
    case Flushing => if s.queue.queue.tail < k then 12 else 4
    case Done => 0
  }

  function TicketsBelow(s: System, k: nat): nat {
    if s.queue.queue.tail < k then k - s.queue.queue.tail else 0
  }

  function Distance(s: System, k: nat): nat {
    PER_TICKET * TicketsBelow(s, k) + ServeRank(s, k)
  }

  /** The worker is about to take a ticket from k on, or to flush with none left below k. */
  ghost predicate Beyond(s: System, k: nat) {
    var q := s.queue.queue;
    && k <= q.tail
    && (s.worker.Flushing? || (s.worker.Dequeuing? && |q.threads| >= 1 && q.threads[0] == DequeueCas(q.tail)))
  }

  ghost predicate Closer(s: System, r: System, spurious: bool, k: nat) {
    if spurious then Distance(r, k) <= Distance(s, k) + 1 else Distance(r, k) < Distance(s, k)
  }

  lemma ResumeCloser(s: System, r: System, e: Event<ParsedMessage>, spurious: bool, k: nat)
    requires s.worker.Dequeuing? && !Beyond(s, k) && DequeueProgress(s.queue.queue, e, r.queue.queue) && (e.Spurious? ==> spurious)
    requires r.worker == Resume(e, s.worker.draining) && (e.DequeueFailed? ==> r.queue.queue.tail >= k)
    ensures Closer(s, r, spurious, k)
  {
    if e.Taken? {
      assert TicketsBelow(s, k) == TicketsBelow(r, k) + 1;
    } else {
      assert TicketsBelow(s, k) == TicketsBelow(r, k);
    }
  }

  lemma DequeuingCloser(c: Config, start: Queue<ParsedMessage>, s: System, spurious: bool, k: nat)
    requires CoreInv(c, start, s) && Settled(s, k) && s.worker.Dequeuing? && !Beyond(s, k)
    ensures Closer(s, WorkerStep(c, s, spurious), spurious, k)
  {
    var a: Action<ParsedMessage> := if spurious then SpuriousFailure else Run;
    RunInv(c.cap, start, s.trace);
    DequeueProgresses(c.cap, s.queue.queue, Claims(s.queue.log), spurious);
    SettledQueueStep(c, start, s, 0, a, k);
    ResumeCloser(s, WorkerStep(c, s, spurious), Step(c.cap, s.queue.queue, 0, a).1, spurious, k);
  }

  lemma CallingCloser(c: Config, start: Queue<ParsedMessage>, s: System, spurious: bool, k: nat)
    requires CoreInv(c, start, s) && s.worker.Calling?
    ensures Closer(s, WorkerStep(c, s, spurious), false, k)
  {
  }

  lemma LocalCloser(c: Config, s: System, spurious: bool, k: nat)
    requires Live(c, s) && !s.worker.Calling? && !s.worker.Dequeuing? && !s.worker.Done? && !Beyond(s, k)
    ensures Closer(s, WorkerStep(c, s, spurious), false, k)
  {
    WorkerLocal(c, s, spurious);
    assert ServeRank(WorkerStep(c, s, spurious), k) < ServeRank(s, k);
  }

  lemma WorkCloser(c: Config, start: Queue<ParsedMessage>, s: System, spurious: bool, k: nat)
    requires CoreInv(c, start, s) && Settled(s, k) && !s.worker.Done? && !Beyond(s, k)
    ensures Closer(s, WorkerStep(c, s, spurious), spurious, k)
  {
    if s.worker.Dequeuing? {
      DequeuingCloser(c, start, s, spurious, k);
    } else if s.worker.Calling? {
      CallingCloser(c, start, s, spurious, k);
    } else {
      LocalCloser(c, s, spurious, k);
    }
  }

  /** The moves of the others leave the worker where it is. */
  ghost predicate SameWorker(s: System, r: System) {
    && r.worker == s.worker && r.queue.queue.tail == s.queue.queue.tail
    && |r.queue.queue.threads| == |s.queue.queue.threads|
    && (|s.queue.queue.threads| > 0 ==> r.queue.queue.threads[0] == s.queue.queue.threads[0])
    && r.journal.messages == s.journal.messages
    && (!s.worker.Done? ==> r.journal == s.journal)
  }

  lemma OthersAway(c: Config, start: Queue<ParsedMessage>, s: System, m: Move)
    requires CoreInv(c, start, s) && !m.Work?
    ensures SameWorker(s, Next(c, s, m))
  {
    match m
    case Client(p, a) =>
      if p != 0 && !a.CallDequeue? {
        ClientAway(c, start, s, p, a);
      }
    case Stop => StopLocal(c, s);
  }

  lemma ClientAway(c: Config, start: Queue<ParsedMessage>, s: System, p: nat, a: Action<ParsedMessage>)
    requires CoreInv(c, start, s) && p != 0 && !a.CallDequeue?
    ensures SameWorker(s, QueueStep(c, s, p, a))
  {
    QueueStepFacts(c, start, s, p, a);
    RunInv(c.cap, start, s.trace);
    SoleConsumerInOrder(c.cap, start, s.trace, 0);
    TailStays(c.cap, s.queue.queue, Claims(s.queue.log), p, a);
  }

  lemma TailStays<T>(cap: Capacity, q: Queue<T>, items: seq<T>, p: nat, a: Action<T>)
    requires Inv(cap, q, items) && (p < |q.threads| ==> !InDequeue(q.threads[p]))
    ensures Step(cap, q, p, a).0.tail == q.tail
  {
    StepShows(cap, q, items, p, a);
  }

  lemma SameDistance(s: System, r: System, k: nat)
    requires SameWorker(s, r)
    ensures Distance(r, k) == Distance(s, k)
  {
  }

  // ---- Written in time ----

  /** Until the tickets below k are written, the worker still has one of them to take or in its hands. */
  lemma NotYetWritten(c: Config, start: Queue<ParsedMessage>, s: System, k: nat)
    requires CoreInv(c, start, s) && Settled(s, k) && |s.journal.messages| < k
    ensures !s.worker.Done? && !Beyond(s, k) && Distance(s, k) > 0
  {
    PrefixOfSent(c, start, s);
  }

  lemma MessagesStay(c: Config, s: System, m: Move)
    requires Live(c, s)
    ensures |s.journal.messages| <= |Next(c, s, m).journal.messages|
  {
  }

  /** What the worker has done so far, and what it has left to do. */
  ghost predicate Nearing(s: System, r: System, moves: seq<Move>, k: nat) {
    k <= |r.journal.messages| || Distance(r, k) + Steps(moves, false) <= Distance(s, k) + Steps(moves, true)
  }

  lemma NearingNext(c: Config, start: Queue<ParsedMessage>, s: System, m: Move, k: nat)
    requires CoreInv(c, start, s) && Settled(s, k) && |s.journal.messages| < k
    ensures Distance(Next(c, s, m), k) + (if m == Work(false) then 1 else 0) <= Distance(s, k) + (if m == Work(true) then 1 else 0)
  {
    NotYetWritten(c, start, s, k);
    if m.Work? {
      WorkCloser(c, start, s, m.spurious, k);
    } else {
      OthersAway(c, start, s, m);
      SameDistance(s, Next(c, s, m), k);
    }
  }

  lemma {:induction false} Nears(c: Config, start: Queue<ParsedMessage>, s: System, moves: seq<Move>, k: nat)
    requires CoreInv(c, start, s) && Settled(s, k)
    ensures Nearing(s, Go(c, s, moves), moves, k)
  {
    if moves != [] {
      var n := |moves| - 1;
      var before := Go(c, s, moves[..n]);
      Nears(c, start, s, moves[..n], k);
      GoKeeps(c, start, s, moves[..n]);
      SettledGo(c, start, s, moves[..n], k);
      MessagesStay(c, before, moves[n]);
      if |before.journal.messages| < k {
        NearingNext(c, start, before, moves[n], k);
      }
    }
  }

  lemma DistanceBounded(c: Config, start: Queue<ParsedMessage>, s: System, k: nat)
    requires CoreInv(c, start, s) && k <= s.queue.queue.head
    ensures Distance(s, k) <= 21 * c.cap + 25
  {
    RunInv(c.cap, start, s.trace);
    assert TicketsBelow(s, k) <= c.cap;
  }

  /**
   While the logger runs, and whatever the others do, new calls and stop() included: the messages of all tickets below
   k, none of them held unpublished, are written once the worker has taken 21 Capacity + 25 steps beyond its
   spurious failures.
   */
  lemma WrittenInTime(c: Config, s0: System, before: seq<Move>, moves: seq<Move>, k: nat)
    requires Started(c, s0)
    requires var s := Go(c, s0, before); s.running && NobodyHoldsBelow(s.queue.queue, k)
    requires Steps(moves, false) >= 21 * c.cap + 25 + Steps(moves, true)
    ensures var s := Go(c, s0, before); forall u: nat :: u < k ==> WrittenAt(s, Go(c, s, moves), u)
  {
    var start, s := s0.queue.queue, Go(c, s0, before);
    StartedInv(c, s0);
    GoKeeps(c, start, s0, before);
    var r := Go(c, s, moves);
    DistanceBounded(c, start, s, k);
    Nears(c, start, s, moves, k);
    GoKeeps(c, start, s, moves);
    SettledGo(c, start, s, moves, k);
    if |r.journal.messages| < k {
      NotYetWritten(c, start, r, k);
    }
    SentGo(c, s, moves);
    PrefixOfSent(c, start, s);
    PrefixOfSent(c, start, r);
  }

  // ---- In the file in time ----

  /** Everything in ms has left the buffer: it is in the mapping, or was handed to ::write. */
  ghost predicate HandedOver(c: Config, s: System, ms: seq<Message>) {
    var sink, cs := s.journal.sink, s.journal.chunks;
    && s.journal.messages == ms && sink.offset == 0
    && (if c.mode.Mmap? then sink.total <= |sink.file| && sink.file[..sink.total] == Stream(ms)
        else
          && ChunksOk(cs) && Payloads(cs) == Stream(ms) && sink.file == OnDisk(cs)
          && |Stream(ms)| == sink.total + Dropped(cs)
          && (AlwaysComplete(c.device) ==> sink.file == Blocks(cs) && sink.total == |Stream(ms)|)
          && (AlwaysComplete(c.device) && c.mode.Buffered? ==> sink.file == Stream(ms)))
  }

  lemma EmptyBuffer(c: Config, s: System)
    requires JournalOk(c, s) && s.journal.sink.offset == 0
    ensures HandedOver(c, s, s.journal.messages)
  {
    JournalFile(c, s);
    assert Payloads(s.journal.chunks) + [] == Payloads(s.journal.chunks);
  }

  ghost predicate NoWork(moves: seq<Move>) {
    forall i :: 0 <= i < |moves| ==> !moves[i].Work?
  }

  lemma {:induction false} NoWorkKeeps(c: Config, start: Queue<ParsedMessage>, s: System, moves: seq<Move>)
    requires CoreInv(c, start, s) && NoWork(moves) && !s.worker.Done?
    ensures Go(c, s, moves).worker == s.worker && Go(c, s, moves).journal == s.journal
  {
    if moves != [] {
      var n := |moves| - 1;
      NoWorkKeeps(c, start, s, moves[..n]);
      GoKeeps(c, start, s, moves[..n]);
      OthersAway(c, start, Go(c, s, moves[..n]), moves[n]);
    }
  }

  lemma FlushNow(c: Config, s: System, spurious: bool)
    requires Live(c, s) && WorkerOk(s) && JournalOk(c, s) && s.worker.Flushing?
    ensures var r := WorkerStep(c, s, spurious); r.worker.CheckRunning? && HandedOver(c, r, s.journal.messages)
  {
    var r := WorkerStep(c, s, spurious);
    JournalWork(c, s, spurious);
    BytesKeep(c, s.journal, FlushOp);
    RecordMessages(s.journal, FlushOp, c.device);
    EmptyBuffer(c, r);
  }

  lemma FailureLeadsToFlush(c: Config, s: System, spurious: bool)
    requires Live(c, s) && s.worker == Dequeuing(false)
    requires Step(c.cap, s.queue.queue, 0, if spurious then SpuriousFailure else Run).1.DequeueFailed?
    ensures WorkerStep(c, s, spurious).worker == Flushing && WorkerStep(c, s, spurious).journal == s.journal
  {
  }

  /** When try_dequeue fails in the first loop, the worker's next step hands over all it has buffered. */
  lemma IdleHandsOver(c: Config, start: Queue<ParsedMessage>, s: System, spurious: bool, between: seq<Move>, spurious': bool)
    requires SessionInv(c, start, s) && s.worker == Dequeuing(false) && NoWork(between)
    requires Step(c.cap, s.queue.queue, 0, if spurious then SpuriousFailure else Run).1.DequeueFailed?
    ensures HandedOver(c, Next(c, Go(c, Next(c, s, Work(spurious)), between), Work(spurious')), s.journal.messages)
  {
    var failed := Next(c, s, Work(spurious));
    FailureLeadsToFlush(c, s, spurious);
    NextKeeps(c, start, s, Work(spurious));
    JournalKeeps(c, s, Work(spurious));
    NoWorkKeeps(c, start, failed, between);
    SessionKeeps(c, start, failed, between);
    FlushNow(c, Go(c, failed, between), spurious');
  }

  /** Running, and nobody is inside log(): k tickets have been claimed, and no more will be. */
  ghost predicate Resting(s: System, k: nat) {
    s.running && Quiet(s) && s.queue.queue.head == k
  }

  ghost predicate AllFlushed(s: System, k: nat) {
    |s.journal.messages| == k && s.journal.sink.offset == 0
  }

  lemma RestingSettled(c: Config, start: Queue<ParsedMessage>, s: System, k: nat)
    requires CoreInv(c, start, s) && Resting(s, k)
    ensures Settled(s, k) && !s.worker.Done?
  {
  }

  lemma RestingQueueStep(c: Config, start: Queue<ParsedMessage>, s: System, p: nat, a: Action<ParsedMessage>, k: nat)
    requires CoreInv(c, start, s) && Resting(s, k) && !a.CallEnqueue?
    ensures Resting(QueueStep(c, s, p, a), k)
  {
    QuietQueueStep(c, start, s, p, a);
  }

  lemma RestingWork(c: Config, start: Queue<ParsedMessage>, s: System, spurious: bool, k: nat)
    requires CoreInv(c, start, s) && Resting(s, k)
    ensures Resting(WorkerStep(c, s, spurious), k)
  {
    if s.worker.Calling? {
      RestingQueueStep(c, start, s, 0, CallDequeue, k);
    } else if s.worker.Dequeuing? {
      RestingQueueStep(c, start, s, 0, if spurious then SpuriousFailure else Run, k);
    } else {
      WorkerLocal(c, s, spurious);
    }
  }

  lemma RestingNext(c: Config, start: Queue<ParsedMessage>, s: System, m: Move, k: nat)
    requires CoreInv(c, start, s) && Resting(s, k) && !StartsLog(m) && Next(c, s, m).running
    ensures Resting(Next(c, s, m), k)
  {
    match m
    case Client(p, a) =>
      if p != 0 && !a.CallDequeue? {
        RestingQueueStep(c, start, s, p, a, k);
      }
    case Work(spurious) => RestingWork(c, start, s, spurious, k);
    case Stop =>
  }

  /** With nothing left to take, a worker that has not flushed is on its way to it, or about to. */
  lemma BeyondResting(c: Config, start: Queue<ParsedMessage>, s: System, k: nat)
    requires CoreInv(c, start, s) && Resting(s, k) && Beyond(s, k)
    ensures s.worker.Flushing? && |s.journal.messages| == k
  {
    RunInv(c.cap, start, s.trace);
    PrefixOfSent(c, start, s);
  }

  /** One move: the worker comes closer, or everything is flushed, and then it stays so. */
  lemma FlushedNext(c: Config, start: Queue<ParsedMessage>, s: System, m: Move, k: nat)
    requires SessionInv(c, start, s) && Resting(s, k) && !StartsLog(m) && Next(c, s, m).running
    ensures var r := Next(c, s, m);
            || AllFlushed(r, k)
            || (!AllFlushed(s, k) && Distance(r, k) + (if m == Work(false) then 1 else 0) <= Distance(s, k) + (if m == Work(true) then 1 else 0))
  {
    RestingSettled(c, start, s, k);
    if !m.Work? {
      OthersAway(c, start, s, m);
      SameDistance(s, Next(c, s, m), k);
    } else if AllFlushed(s, k) {
      StaysFlushed(c, start, s, m.spurious, k);
    } else if Beyond(s, k) {
      BeyondResting(c, start, s, k);
      FlushNow(c, s, m.spurious);
    } else {
      WorkCloser(c, start, s, m.spurious, k);
    }
  }

  lemma StaysFlushed(c: Config, start: Queue<ParsedMessage>, s: System, spurious: bool, k: nat)
    requires SessionInv(c, start, s) && Resting(s, k) && AllFlushed(s, k)
    ensures AllFlushed(WorkerStep(c, s, spurious), k)
  {
    PrefixOfSent(c, start, s);
    if s.worker.Flushing? {
      FlushNow(c, s, spurious);
    }
  }

  /** A logger that runs in the end ran all the time. */
  lemma RanBefore(c: Config, s: System, m: Move)
    requires Live(c, s)
    ensures Next(c, s, m).running ==> s.running
  {
  }

  lemma {:induction false} NearsFlush(c: Config, start: Queue<ParsedMessage>, s: System, moves: seq<Move>, k: nat)
    requires SessionInv(c, start, s) && Resting(s, k) && NoNewCalls(moves) && Go(c, s, moves).running
    ensures var r := Go(c, s, moves);
            Resting(r, k) && (AllFlushed(r, k) || Distance(r, k) + Steps(moves, false) <= Distance(s, k) + Steps(moves, true))
  {
    if moves != [] {
      var n := |moves| - 1;
      var before := Go(c, s, moves[..n]);
      RanBefore(c, before, moves[n]);
      NearsFlush(c, start, s, moves[..n], k);
      SessionKeeps(c, start, s, moves[..n]);
      RestingNext(c, start, before, moves[n], k);
      FlushedNext(c, start, before, moves[n], k);
    }
  }

  lemma NotYetFlushed(c: Config, start: Queue<ParsedMessage>, s: System, k: nat)
    requires CoreInv(c, start, s) && Resting(s, k)
    ensures Distance(s, k) > 0
  {
    RestingSettled(c, start, s, k);
  }

  /**
   When nobody is inside log() and no call begins, the file of the running logger has everything: after 21 Capacity + 25
   steps of the worker beyond its spurious failures all claimed messages have been handed over, and they stay so.
   */
  lemma FlushedInTime(c: Config, s0: System, before: seq<Move>, moves: seq<Move>)
    requires Started(c, s0) && NoNewCalls(moves)
    requires var s := Go(c, s0, before); Quiet(s) && Go(c, s, moves).running
    requires Steps(moves, false) >= 21 * c.cap + 25 + Steps(moves, true)
    ensures var s := Go(c, s0, before); HandedOver(c, Go(c, s, moves), Sent(s))
  {
    var start, s := s0.queue.queue, Go(c, s0, before);
    StartedInv(c, s0);
    SessionKeeps(c, start, s0, before);
    var r, k := Go(c, s, moves), s.queue.queue.head;
    StillRan(c, s, moves);
    DistanceBounded(c, start, s, k);
    NearsFlush(c, start, s, moves, k);
    SessionKeeps(c, start, s, moves);
    NotYetFlushed(c, start, r, k);
    SentGo(c, s, moves);
    PrefixOfSent(c, start, s);
    PrefixOfSent(c, start, r);
    AllSent(s, r);
    EmptyBuffer(c, r);
  }

  lemma AllSent(s: System, r: System)
    requires Sent(s) <= Sent(r) && |Sent(s)| == |Sent(r)| == |r.journal.messages| && r.journal.messages == Sent(r)[..|r.journal.messages|]
    ensures r.journal.messages == Sent(s)
  {
  }

  lemma {:induction false} StillRan(c: Config, s: System, moves: seq<Move>)
    requires Live(c, s)
    ensures Go(c, s, moves).running ==> s.running
  {
    if moves != [] {
      StillRan(c, s, moves[..|moves| - 1]);
      RanBefore(c, Go(c, s, moves[..|moves| - 1]), moves[|moves| - 1]);
    }
  }
}
