/**
 stop() returns: once running_ is cleared, every continuation without new log() calls in which the worker gets
 enough steps ends its loop, whatever the other threads do and however their steps are interleaved.
 */
module LogDrain {
  import opened Bits
  import opened QueueProtocol
  import opened QueueInvariant
  import opened QueueDelivery
  import opened QueueProgress
  import opened ItchMessages
  import opened LogSession
  import opened LogGuarantees

  // ---- How far the worker is from its end ----

  function DequeueRank<T>(pc: Pc<T>, tail: nat): nat {
    match pc
    case DequeueRead(_) => 25
    case DequeueStore(_, _) => 24
    case DequeueSeq(pos) => if pos == tail then 6 else 9
    case DequeueCas(pos) => if pos == tail then 5 else 8
    case DequeueReload(_) => 8
    case _ => 0
  }

  predicate Holding<T>(pc: Pc<T>) {
    pc.DequeueRead? || pc.DequeueStore?
  }

  /** Steps the worker needs at most until it takes a ticket or ends, once running_ is false. */
  function WorkerRank(s: System): nat {
    match s.worker
    case CheckRunning => 17
    case Calling(d) => if d then 10 else 50
    case Dequeuing(d) =>
      var q := s.queue.queue;
      if |q.threads| == 0 then 0
      else DequeueRank(q.threads[0], q.tail) + (if d || Holding(q.threads[0]) then 0 else 40)
    case Writing(_, _) => 23
    case Flushing => 40
    case Done => 0
  }

  /** Steps per ticket. */
  const PER_TICKET: nat := 21

  function TicketsLeft(s: System): nat {
    if s.queue.queue.tail <= s.queue.queue.head then s.queue.queue.head - s.queue.queue.tail else 0
  }

  /** The worker's steps until its end if nobody claims another ticket. */
  function OwnWork(s: System): nat {
    PER_TICKET * TicketsLeft(s) + WorkerRank(s)
  }

  // ---- The worker's steps ----

  /** A step of try_dequeue: it takes a ticket, returns, fails spuriously, or comes closer to one of these. */
  ghost predicate DequeueProgress<T>(q: Queue<T>, e: Event<T>, q': Queue<T>) {
    && |q.threads| == |q'.threads| >= 1
    && q'.head == q.head && q'.threads == q.threads[0 := q'.threads[0]]
    && var pc, pc' := q.threads[0], q'.threads[0];
       match e
       case Taken(_) => pc == DequeueCas(q.tail) && pc'.DequeueRead? && q'.tail == q.tail + 1 <= q.head
       case DequeueReturned(_, _, _) => pc.DequeueStore? && q'.tail == q.tail
       case DequeueFailed(_) => pc == DequeueSeq(q.tail) && q'.tail == q.tail
       case Spurious(_) => pc == DequeueCas(q.tail) && pc' == DequeueSeq(q.tail) && q'.tail == q.tail
       case _ => DequeueRank(pc', q'.tail) < DequeueRank(pc, q.tail) && Holding(pc) == Holding(pc') && q'.tail == q.tail
  }

  lemma DequeueProgresses<T>(cap: Capacity, q: Queue<T>, items: seq<T>, spurious: bool)
    requires cap >= 2 && Inv(cap, q, items) && |q.threads| >= 1 && InDequeue(q.threads[0])
    ensures var (q', e) := Step(cap, q, 0, if spurious then SpuriousFailure else Run);
            DequeueProgress(q, e, q') && (e.Spurious? ==> spurious)
  {
    var pc := q.threads[0];
    assert ThreadOk(cap, q, items, pc);
    TailSeq(cap, q, items);
    IndexIsSlot(pc.pos, cap);
    if pc.DequeueSeq? && pc.pos < q.tail {
      SeqNotBehind(cap, q, items, pc.pos);
    }
  }

  /** Everything the worker leaves alone. */
  ghost predicate SameClients(s: System, r: System) {
    && |r.queue.queue.threads| == |s.queue.queue.threads|
    && (forall p :: 1 <= p < |s.queue.queue.threads| ==> r.queue.queue.threads[p] == s.queue.queue.threads[p])
    && r.queue.queue.head == s.queue.queue.head
    && r.stop == s.stop && r.running == s.running
  }

  /** A step of the worker brings it closer to its end, a spurious failure takes it back by at most one. */
  ghost predicate Works(s: System, r: System, spurious: bool) {
    SameClients(s, r) && if spurious then OwnWork(r) <= OwnWork(s) + 1 else OwnWork(r) < OwnWork(s)
  }

  lemma ResumeRank(s: System, r: System, e: Event<ParsedMessage>, spurious: bool)
    requires s.worker.Dequeuing? && DequeueProgress(s.queue.queue, e, r.queue.queue) && (e.Spurious? ==> spurious)
    requires r == s.(queue := r.queue, trace := r.trace, worker := Resume(e, s.worker.draining))
    requires s.queue.queue.tail <= s.queue.queue.head
    ensures Works(s, r, spurious)
  {
    if e.Taken? {
      assert TicketsLeft(s) == TicketsLeft(r) + 1;
    } else {
      assert TicketsLeft(s) == TicketsLeft(r);
    }
  }

  lemma DequeuingWorks(c: Config, start: Queue<ParsedMessage>, s: System, spurious: bool)
    requires CoreInv(c, start, s) && s.worker.Dequeuing?
    ensures Works(s, WorkerStep(c, s, spurious), spurious)
  {
    RunInv(c.cap, start, s.trace);
    DequeueProgresses(c.cap, s.queue.queue, Claims(s.queue.log), spurious);
    var a: Action<ParsedMessage> := if spurious then SpuriousFailure else Run;
    ResumeRank(s, WorkerStep(c, s, spurious), Step(c.cap, s.queue.queue, 0, a).1, spurious);
  }

  lemma CallingWorks(c: Config, start: Queue<ParsedMessage>, s: System)
    requires CoreInv(c, start, s) && s.worker.Calling?
    ensures Works(s, WorkerStep(c, s, false), false)
  {
  }

  lemma LocalWorks(c: Config, s: System, spurious: bool)
    requires Live(c, s) && !s.running && !s.worker.Calling? && !s.worker.Dequeuing? && !s.worker.Done?
    ensures Works(s, WorkerStep(c, s, spurious), spurious)
  {
    WorkerLocal(c, s, spurious);
    assert WorkerRank(WorkerStep(c, s, spurious)) < WorkerRank(s);
  }

  lemma WorkerWorks(c: Config, start: Queue<ParsedMessage>, s: System, spurious: bool)
    requires CoreInv(c, start, s) && !s.running && !s.worker.Done?
    ensures Works(s, WorkerStep(c, s, spurious), spurious)
  {
    if s.worker.Dequeuing? {
      DequeuingWorks(c, start, s, spurious);
    } else if s.worker.Calling? {
      CallingWorks(c, start, s);
    } else {
      LocalWorks(c, s, spurious);
    }
  }

  // ---- The worker alone ----

  lemma Prepend(c: Config, s: System, m: Move, rest: seq<Move>)
    requires Live(c, s) && !StartsLog(m) && NoNewCalls(rest)
    ensures NoNewCalls([m] + rest) && Go(c, s, [m] + rest) == Go(c, Next(c, s, m), rest)
  {
    OneMove(c, s, m);
    GoAppend(c, s, [m], rest);
  }

  lemma WorkOnce(c: Config, start: Queue<ParsedMessage>, s: System) returns (r: System)
    requires CoreInv(c, start, s) && !s.running && !s.worker.Done?
    ensures r == Next(c, s, Work(false)) && CoreInv(c, start, r) && Works(s, r, false)
  {
    WorkerWorks(c, start, s, false);
    NextKeeps(c, start, s, Work(false));
    r := Next(c, s, Work(false));
  }

  ghost predicate Drained(c: Config, start: Queue<ParsedMessage>, s: System, r: System) {
    CoreInv(c, start, r) && r.worker.Done? && SameClients(s, r)
  }

  /** n steps of the worker, and of nobody else. */
  function WorkerOnly(n: nat): (moves: seq<Move>)
    ensures |moves| == n && forall k :: 0 <= k < n ==> moves[k] == Work(false)
  {
    if n == 0 then [] else [Work(false)] + WorkerOnly(n - 1)
  }

  lemma DrainedLater(c: Config, start: Queue<ParsedMessage>, s: System, r: System, n: nat)
    requires Live(c, s) && Live(c, r) && r == Next(c, s, Work(false)) && SameClients(s, r)
    requires Drained(c, start, r, Go(c, r, WorkerOnly(n)))
    ensures Drained(c, start, s, Go(c, s, WorkerOnly(n + 1)))
  {
    Prepend(c, s, Work(false), WorkerOnly(n));
  }

  lemma DrainedNow(c: Config, start: Queue<ParsedMessage>, s: System)
    requires CoreInv(c, start, s) && s.worker.Done?
    ensures Drained(c, start, s, Go(c, s, WorkerOnly(0)))
  {
  }

  /** The worker, running alone after stop() has begun, finishes, and nobody else has moved. */
  lemma Drain(c: Config, start: Queue<ParsedMessage>, s: System) returns (n: nat)
    requires CoreInv(c, start, s) && !s.running
    ensures n <= OwnWork(s) && Drained(c, start, s, Go(c, s, WorkerOnly(n)))
    decreases OwnWork(s)
  {
    if s.worker.Done? {
      DrainedNow(c, start, s);
      n := 0;
    } else {
      var r := WorkOnce(c, start, s);
      n := Drain(c, start, r);
      DrainedLater(c, start, s, r, n);
      n := n + 1;
    }
  }

  // ---- The worker among other threads ----

  /** log() calls that have not claimed a ticket yet. */
  function Callers<T>(threads: seq<Pc<T>>): (n: nat)
    ensures n <= |threads|
  {
    if threads == [] then 0
    else Callers(threads[..|threads| - 1]) + (if LoopOn(threads[|threads| - 1], Producing) then 1 else 0)
  }

  lemma {:induction false} CallersUpdate<T>(threads: seq<Pc<T>>, p: nat, pc: Pc<T>)
    requires p < |threads|
    ensures Callers(threads[p := pc]) + (if LoopOn(threads[p], Producing) then 1 else 0)
         == Callers(threads) + (if LoopOn(pc, Producing) then 1 else 0)
  {
    var n := |threads| - 1;
    if p == n {
      assert threads[p := pc][..n] == threads[..n];
    } else {
      CallersUpdate(threads[..n], p, pc);
      assert threads[p := pc][..n] == threads[..n][p := pc];
    }
  }

  /** The steps the worker may still need: each call in flight may add a ticket. */
  function WorkLeft(s: System): nat {
    OwnWork(s) + PER_TICKET * Callers(s.queue.queue.threads)
  }

  /** A step of a client that starts no log() call uses up a call in flight for every ticket it claims. */
  lemma ClientStep<T>(cap: Capacity, q: Queue<T>, p: nat, a: Action<T>)
    requires Shape(cap, q) && p < |q.threads| && !InDequeue(q.threads[p]) && !a.CallEnqueue? && !a.CallDequeue?
    ensures var q' := Step(cap, q, p, a).0;
            && q'.threads == q.threads[p := q'.threads[p]] && q'.tail == q.tail && q.head <= q'.head
            && q.head + (if LoopOn(q.threads[p], Producing) then 1 else 0) >= q'.head + (if LoopOn(q'.threads[p], Producing) then 1 else 0)
  {
  }

  lemma ClientUses<T>(cap: Capacity, q: Queue<T>, p: nat, a: Action<T>)
    requires Shape(cap, q) && !a.CallEnqueue? && !a.CallDequeue? && (p < |q.threads| ==> !InDequeue(q.threads[p]))
    ensures var q' := Step(cap, q, p, a).0;
            && q'.tail == q.tail && q.head <= q'.head && q'.head + Callers(q'.threads) <= q.head + Callers(q.threads)
            && (p != 0 && |q.threads| > 0 ==> q'.threads[0] == q.threads[0])
  {
    if p < |q.threads| {
      ClientStep(cap, q, p, a);
      CallersUpdate(q.threads, p, Step(cap, q, p, a).0.threads[p]);
    }
  }

  lemma LeftFalls(s: System, r: System)
    requires r == s.(queue := r.queue, trace := r.trace)
    requires var q, q' := s.queue.queue, r.queue.queue;
             && |q.threads| == |q'.threads| >= 1 && q'.threads[0] == q.threads[0]
             && q'.tail == q.tail <= q.head && q.head <= q'.head
             && q'.head + Callers(q'.threads) <= q.head + Callers(q.threads)
    ensures WorkLeft(r) <= WorkLeft(s)
  {
    assert WorkerRank(r) == WorkerRank(s);
  }

  lemma ClientLeft(c: Config, start: Queue<ParsedMessage>, s: System, p: nat, a: Action<ParsedMessage>)
    requires CoreInv(c, start, s) && p != 0 && !a.CallEnqueue? && !a.CallDequeue?
    ensures WorkLeft(QueueStep(c, s, p, a)) <= WorkLeft(s)
  {
    RunInv(c.cap, start, s.trace);
    SoleConsumerInOrder(c.cap, start, s.trace, 0);
    ClientUses(c.cap, s.queue.queue, p, a);
    LeftFalls(s, QueueStep(c, s, p, a));
  }

  lemma WorkerLeft(c: Config, start: Queue<ParsedMessage>, s: System, r: System, spurious: bool)
    requires CoreInv(c, start, s) && CoreInv(c, start, r) && Works(s, r, spurious)
    ensures if spurious then WorkLeft(r) <= WorkLeft(s) + 1 else WorkLeft(r) < WorkLeft(s)
  {
    var before, now := s.queue.queue.threads, r.queue.queue.threads;
    assert now == before[0 := now[0]];
    CallersUpdate(before, 0, now[0]);
  }

  /** Steps of the worker among the moves: regular ones, or those that fail spuriously. */
  function Steps(moves: seq<Move>, spurious: bool): nat {
    if moves == [] then 0
    else Steps(moves[..|moves| - 1], spurious) + (if moves[|moves| - 1] == Work(spurious) then 1 else 0)
  }

  lemma NextLeft(c: Config, start: Queue<ParsedMessage>, s: System, m: Move)
    requires CoreInv(c, start, s) && !s.running && !s.worker.Done? && !StartsLog(m)
    ensures WorkLeft(Next(c, s, m)) + (if m == Work(false) then 1 else 0) <= WorkLeft(s) + (if m == Work(true) then 1 else 0)
  {
    match m
    case Client(p, a) =>
      if p != 0 && !a.CallDequeue? {
        ClientLeft(c, start, s, p, a);
      }
    case Work(spurious) =>
      WorkerWorks(c, start, s, spurious);
      NextKeeps(c, start, s, m);
      WorkerLeft(c, start, s, Next(c, s, m), spurious);
    case Stop => StopLeft(c, s);
  }

  lemma StopLeft(c: Config, s: System)
    requires Live(c, s) && WorkerOk(s)
    ensures WorkLeft(StopStep(c, s)) == WorkLeft(s)
  {
    StopLocal(c, s);
  }

  /** running_ stays false, and a worker that is done stays done. */
  lemma StaysDone(c: Config, s: System, m: Move)
    requires Live(c, s)
    ensures !s.running ==> !Next(c, s, m).running
    ensures s.worker.Done? ==> Next(c, s, m).worker.Done?
  {
  }

  ghost predicate Nearer(s: System, r: System, moves: seq<Move>) {
    !r.running && (r.worker.Done? || WorkLeft(r) + Steps(moves, false) <= WorkLeft(s) + Steps(moves, true))
  }

  lemma {:induction false} ComesNearer(c: Config, start: Queue<ParsedMessage>, s: System, moves: seq<Move>)
    requires CoreInv(c, start, s) && !s.running && NoNewCalls(moves)
    ensures Nearer(s, Go(c, s, moves), moves)
  {
    if moves != [] {
      var n := |moves| - 1;
      ComesNearer(c, start, s, moves[..n]);
      GoKeeps(c, start, s, moves[..n]);
      var before := Go(c, s, moves[..n]);
      StaysDone(c, before, moves[n]);
      if !before.worker.Done? {
        NextLeft(c, start, before, moves[n]);
      }
    }
  }

  /** More regular steps than WorkLeft and the spurious failures: the worker's loop ends, in every continuation. */
  lemma WorkerEnds(c: Config, start: Queue<ParsedMessage>, s: System, moves: seq<Move>)
    requires CoreInv(c, start, s) && !s.running && NoNewCalls(moves)
    requires Steps(moves, false) >= WorkLeft(s) + Steps(moves, true)
    ensures Go(c, s, moves).worker.Done?
  {
    ComesNearer(c, start, s, moves);
    GoKeeps(c, start, s, moves);
    if !Go(c, s, moves).worker.Done? {
      RankPositive(Go(c, s, moves));
    }
  }

  lemma RankPositive(s: System)
    requires WorkerOk(s) && !s.worker.Done?
    ensures WorkerRank(s) > 0
  {
  }

  // ---- stop() returns ----

  /** Regular steps that always suffice. */
  function Enough(cap: nat, threads: nat): nat {
    PER_TICKET * (cap + threads) + 50
  }

  lemma LeftBounded(c: Config, start: Queue<ParsedMessage>, s: System)
    requires CoreInv(c, start, s)
    ensures WorkLeft(s) <= Enough(c.cap, |start.threads|)
  {
    RunInv(c.cap, start, s.trace);
    assert TicketsLeft(s) <= c.cap && Callers(s.queue.queue.threads) <= |start.threads|;
    assert WorkerRank(s) <= 50;
  }

  /** Steps of the thread that called stop(). */
  function StopSteps(moves: seq<Move>): nat {
    if moves == [] then 0 else StopSteps(moves[..|moves| - 1]) + (if moves[|moves| - 1].Stop? then 1 else 0)
  }

  function StopRank(s: System): nat {
    match s.stop case NotStopped => 3 case Joining => 2 case Closing => 1 case Stopped(_) => 0
  }

  lemma StopAdvances(c: Config, s: System, m: Move)
    requires Live(c, s) && s.worker.Done?
    ensures var r := Next(c, s, m); StopRank(r) <= StopRank(s) && (m.Stop? && StopRank(s) > 0 ==> StopRank(r) < StopRank(s))
  {
  }

  /** Once the worker is done, two steps of stop() are enough, whatever else happens. */
  lemma {:induction false} StopGetsThrough(c: Config, s: System, moves: seq<Move>)
    requires Live(c, s) && s.worker.Done?
    ensures var r := Go(c, s, moves); r.worker.Done? && (StopRank(r) == 0 || StopRank(r) + StopSteps(moves) <= StopRank(s))
  {
    if moves != [] {
      var n := |moves| - 1;
      StopGetsThrough(c, s, moves[..n]);
      StaysDone(c, Go(c, s, moves[..n]), moves[n]);
      StopAdvances(c, Go(c, s, moves[..n]), moves[n]);
    }
  }

  /**
   From every state of every session, stop() returns: once it has begun, and no new log() call begins, any
   interleaving that grants the worker Enough regular steps beyond its spurious failures ends its loop, and any
   interleaving after that which grants stop() two more steps ends stop().
   */
  lemma StopReturns(c: Config, s0: System, before: seq<Move>, during: seq<Move>, after: seq<Move>)
    requires Started(c, s0) && Go(c, s0, before).stop.NotStopped? && NoNewCalls(during)
    requires Steps(during, false) >= Enough(c.cap, |s0.queue.queue.threads|) + Steps(during, true)
    requires StopSteps(after) >= 2
    ensures Go(c, s0, before + ([Stop] + during) + after).stop.Stopped?
  {
    var start, s := s0.queue.queue, Go(c, s0, before);
    StartedInv(c, s0);
    GoKeeps(c, start, s0, before);
    NextKeeps(c, start, s, Stop);
    var begun := Next(c, s, Stop);
    LeftBounded(c, start, begun);
    WorkerEnds(c, start, begun, during);
    FinalStop(c, begun, during, after);
    GoAppend(c, s0, before, [Stop] + during);
    GoAppend(c, s0, before + ([Stop] + during), after);
    Prepend(c, s, Stop, during);
  }

  lemma BegunStays(c: Config, s: System, m: Move)
    requires Live(c, s) && StopRank(s) <= 2
    ensures StopRank(Next(c, s, m)) <= 2
  {
  }

  lemma {:induction false} StopStaysBegun(c: Config, s: System, moves: seq<Move>)
    requires Live(c, s) && StopRank(s) <= 2
    ensures StopRank(Go(c, s, moves)) <= 2
  {
    if moves != [] {
      StopStaysBegun(c, s, moves[..|moves| - 1]);
      BegunStays(c, Go(c, s, moves[..|moves| - 1]), moves[|moves| - 1]);
    }
  }

  lemma FinalStop(c: Config, begun: System, during: seq<Move>, after: seq<Move>)
    requires Live(c, begun) && StopRank(begun) <= 2 && Go(c, begun, during).worker.Done? && StopSteps(after) >= 2
    ensures Go(c, Go(c, begun, during), after).stop.Stopped?
  {
    StopStaysBegun(c, begun, during);
    StopGetsThrough(c, Go(c, begun, during), after);
  }
}
