/**
 What stop() promises to those whose log() call has already returned true: their messages are in the file exactly
 when no other call holds an earlier ticket unpublished as stop() begins.
 */
module LogAccepted {
  import opened Bits
  import opened QueueProtocol
  import opened QueueInvariant
  import opened QueueSafety
  import opened QueueDelivery
  import opened QueuePaused
  import opened QueueSolo
  import opened ItchMessages
  import opened LogSession
  import opened LogGuarantees
  import opened LogDrain
  import opened LogStarvation
  import opened LogLoss

  // ---- Every ticket below k is published or consumed ----

  ghost predicate NobodyHoldsBelow<T>(q: Queue<T>, k: nat) {
    k <= q.head && forall p, t: nat :: 0 <= p < |q.threads| && t < k ==> !ProducerHolds(q.threads[p], t)
  }

  /** This remains so, and from now on try_dequeue fails only when all of them have been taken. */
  lemma StaysSettled<T>(cap: Capacity, q: Queue<T>, items: seq<T>, o: nat, a: Action<T>, k: nat)
    requires cap >= 2 && Inv(cap, q, items) && NobodyHoldsBelow(q, k)
    ensures var (q', e) := Step(cap, q, o, a);
            NobodyHoldsBelow(q', k) && q'.tail >= q.tail && (e.DequeueFailed? ==> q'.tail >= k)
  {
    StepHolds(cap, q, o, a);
    StepShows(cap, q, items, o, a);
    CountersRise(cap, q, o, a);
    if Step(cap, q, o, a).1.DequeueFailed? {
      DequeueFailsExactly(cap, q, items, o);
    }
  }

  lemma CountersRise<T>(cap: Capacity, q: Queue<T>, o: nat, a: Action<T>)
    requires Shape(cap, q)
    ensures var (q', e) := Step(cap, q, o, a);
            && q'.head >= q.head
            && (e.DequeueFailed? ==> o < |q.threads| && q.threads[o].DequeueSeq? && Step(cap, q, o, Run).1 == DequeueFailed(o))
  {
  }

  /** ... in a session: the worker cannot finish before it has taken them. */
  ghost predicate Settled(s: System, k: nat) {
    NobodyHoldsBelow(s.queue.queue, k) && (s.worker.Done? ==> s.queue.queue.tail >= k)
  }

  lemma SettledQueueStep(c: Config, start: Queue<ParsedMessage>, s: System, p: nat, a: Action<ParsedMessage>, k: nat)
    requires CoreInv(c, start, s) && Settled(s, k)
    ensures var r := QueueStep(c, s, p, a); var e := r.queue.log[|r.queue.log| - 1];
            Settled(r, k) && (e.DequeueFailed? ==> r.queue.queue.tail >= k)
  {
    RunInv(c.cap, start, s.trace);
    StaysSettled(c.cap, s.queue.queue, Claims(s.queue.log), p, a, k);
  }

  lemma SettledWork(c: Config, start: Queue<ParsedMessage>, s: System, spurious: bool, k: nat)
    requires CoreInv(c, start, s) && Settled(s, k)
    ensures Settled(WorkerStep(c, s, spurious), k)
  {
    if s.worker.Calling? {
      SettledQueueStep(c, start, s, 0, CallDequeue, k);
    } else if s.worker.Dequeuing? {
      SettledQueueStep(c, start, s, 0, if spurious then SpuriousFailure else Run, k);
    } else {
      WorkerLocal(c, s, spurious);
    }
  }

  lemma SettledNext(c: Config, start: Queue<ParsedMessage>, s: System, m: Move, k: nat)
    requires CoreInv(c, start, s) && Settled(s, k)
    ensures Settled(Next(c, s, m), k)
  {
    match m
    case Client(p, a) => SettledQueueStep(c, start, s, p, a, k);
    case Work(spurious) => SettledWork(c, start, s, spurious, k);
    case Stop => StopLocal(c, s);
  }

  lemma {:induction false} SettledGo(c: Config, start: Queue<ParsedMessage>, s: System, moves: seq<Move>, k: nat)
    requires CoreInv(c, start, s) && Settled(s, k)
    ensures Settled(Go(c, s, moves), k)
  {
    if moves != [] {
      var n := |moves| - 1;
      SettledGo(c, start, s, moves[..n], k);
      GoKeeps(c, start, s, moves[..n]);
      SettledNext(c, start, Go(c, s, moves[..n]), moves[n], k);
    }
  }

  // ---- Tickets keep their messages ----

  lemma SentGrows(log: seq<Event<ParsedMessage>>, e: Event<ParsedMessage>)
    ensures Messages(Claims(log)) <= Messages(Claims(log + [e]))
  {
    ClaimsGrow(log, e);
  }

  lemma SentQueueStep(c: Config, s: System, p: nat, a: Action<ParsedMessage>)
    requires Live(c, s)
    ensures Sent(s) <= Sent(QueueStep(c, s, p, a))
  {
    SentGrows(s.queue.log, Step(c.cap, s.queue.queue, p, a).1);
  }

  lemma SentWork(c: Config, s: System, spurious: bool)
    requires Live(c, s)
    ensures Sent(s) <= Sent(WorkerStep(c, s, spurious))
  {
    if s.worker.Calling? {
      SentQueueStep(c, s, 0, CallDequeue);
    } else if s.worker.Dequeuing? {
      SentQueueStep(c, s, 0, if spurious then SpuriousFailure else Run);
    } else {
      WorkerLocal(c, s, spurious);
    }
  }

  lemma SentNext(c: Config, s: System, m: Move)
    requires Live(c, s)
    ensures Sent(s) <= Sent(Next(c, s, m))
  {
    match m
    case Client(p, a) => SentQueueStep(c, s, p, a);
    case Work(spurious) => SentWork(c, s, spurious);
    case Stop =>
  }

  lemma {:induction false} SentGo(c: Config, s: System, moves: seq<Move>)
    requires Live(c, s)
    ensures Sent(s) <= Sent(Go(c, s, moves))
  {
    if moves != [] {
      SentGo(c, s, moves[..|moves| - 1]);
      SentNext(c, Go(c, s, moves[..|moves| - 1]), moves[|moves| - 1]);
    }
  }

  // ---- The exact condition ----

  /** Some call holds a ticket unpublished while a later ticket's call has returned true. */
  ghost predicate Gap<T>(q: Queue<T>) {
    exists p, t: nat, u: nat :: 0 <= p < |q.threads| && t < u && ProducerHolds(q.threads[p], t) && AcceptedTicket(q, u)
  }

  /** The message that ticket u had in s has been written at its place in r. */
  ghost predicate WrittenAt(s: System, r: System, u: nat) {
    u < |Sent(s)| && u < |r.journal.messages| && r.journal.messages[u] == Sent(s)[u]
  }

  /** Whatever happens after stop() begins, new calls included: what had been accepted before is written. */
  ghost predicate KeepsAccepted(c: Config, s: System)
    requires Live(c, s)
  {
    forall after, u: nat :: AcceptedTicket(s.queue.queue, u) && Go(c, s, [Stop] + after).stop.Stopped?
      ==> WrittenAt(s, Go(c, s, [Stop] + after), u)
  }

  lemma NoGapSettles(c: Config, start: Queue<ParsedMessage>, s: System, u: nat)
    requires CoreInv(c, start, s) && s.stop.NotStopped? && AcceptedTicket(s.queue.queue, u) && !Gap(s.queue.queue)
    ensures Settled(s, u + 1)
  {
  }

  /** Without a gap every accepted message is written. */
  lemma AcceptedWritten(c: Config, start: Queue<ParsedMessage>, s: System, after: seq<Move>, u: nat)
    requires CoreInv(c, start, s) && s.stop.NotStopped? && AcceptedTicket(s.queue.queue, u) && !Gap(s.queue.queue)
    requires Go(c, s, [Stop] + after).stop.Stopped?
    ensures WrittenAt(s, Go(c, s, [Stop] + after), u)
  {
    var r := Go(c, s, [Stop] + after);
    NoGapSettles(c, start, s, u);
    SettledGo(c, start, s, [Stop] + after, u + 1);
    GoKeeps(c, start, s, [Stop] + after);
    SentGo(c, s, [Stop] + after);
    PrefixOfSent(c, start, s);
    PrefixOfSent(c, start, r);
    DoneHoldsNothing(r);
  }

  lemma DoneHoldsNothing(s: System)
    requires WorkerOk(s) && s.stop.Stopped?
    ensures s.worker.Done? && InWorkersHands(s.worker) == [] && TakenBy(s.queue.queue.threads[0]) == []
  {
  }

  /** With one, stop() can return with an accepted message missing. */
  lemma GapLoses(c: Config, start: Queue<ParsedMessage>, s: System) returns (after: seq<Move>, u: nat)
    requires CoreInv(c, start, s) && s.stop.NotStopped? && Gap(s.queue.queue)
    ensures NoNewCalls(after) && AcceptedTicket(s.queue.queue, u)
    ensures var r := Go(c, s, [Stop] + after); r.stop.Stopped? && |r.journal.messages| <= u
  {
    var q := s.queue.queue;
    var p, t: nat, later: nat :| 0 <= p < |q.threads| && t < later && ProducerHolds(q.threads[p], t) && AcceptedTicket(q, later);
    u := later;
    after := HeldTicketBlocks(c, start, s, p, t);
  }

  /** stop() keeps every message accepted before it begins exactly when there is no gap at that moment. */
  lemma AcceptedExact(c: Config, s0: System, before: seq<Move>)
    requires Started(c, s0) && Go(c, s0, before).stop.NotStopped?
    ensures KeepsAccepted(c, Go(c, s0, before)) <==> !Gap(Go(c, s0, before).queue.queue)
  {
    var start, s := s0.queue.queue, Go(c, s0, before);
    StartedInv(c, s0);
    GoKeeps(c, start, s0, before);
    if Gap(s.queue.queue) {
      var after, u := GapLoses(c, start, s);
      assert !WrittenAt(s, Go(c, s, [Stop] + after), u);
    } else {
      forall after, u: nat | AcceptedTicket(s.queue.queue, u) && Go(c, s, [Stop] + after).stop.Stopped?
        ensures WrittenAt(s, Go(c, s, [Stop] + after), u)
      {
        AcceptedWritten(c, start, s, after, u);
      }
    }
  }

  // ---- A session in which an accepted message is lost ----

  lemma OvertakingByClients(p: nat, a: ParsedMessage, r: nat, b: ParsedMessage)
    requires p != 0 && r != 0
    ensures ByClients(Overtaking(p, a, r, b))
  {
    AloneRuns<ParsedMessage>(p, 2);
    AloneRuns<ParsedMessage>(r, 4);
  }

  /** p is paused after its claim, r's call has returned true. */
  ghost predicate Overtaken(q: Queue<ParsedMessage>, log: Log, p: nat, a: ParsedMessage, r: nat, b: ParsedMessage) {
    && p < |q.threads| && q.threads[p] == EnqueueWrite(a, 0)
    && AcceptedTicket(q, 1) && EnqueueReturned(r, b, true) in log
  }

  lemma OvertakenInQueue(cap: Capacity, q: Queue<ParsedMessage>, p: nat, a: ParsedMessage, r: nat, b: ParsedMessage)
    requires cap >= 2 && Initial(cap, q) && p < |q.threads| && r < |q.threads| && p != r
    ensures var x := Exec(cap, q, Overtaking(p, a, r, b)); Overtaken(x.queue, x.log, p, a, r, b)
  {
    Overtakes(cap, q, p, a, r, b);
  }

  lemma GapReached(c: Config, s0: System, p: nat, a: ParsedMessage, r: nat, b: ParsedMessage) returns (s: System)
    requires Started(c, s0) && 1 <= p < |s0.queue.queue.threads| && 1 <= r < |s0.queue.queue.threads| && p != r
    ensures s == Go(c, s0, ClientMoves(Overtaking(p, a, r, b))) && CoreInv(c, s0.queue.queue, s) && s.stop.NotStopped?
    ensures Overtaken(s.queue.queue, s.queue.log, p, a, r, b)
  {
    var sched := Overtaking(p, a, r, b);
    OvertakingByClients(p, a, r, b);
    ClientsGo(c, s0, sched);
    OvertakenInQueue(c.cap, s0.queue.queue, p, a, r, b);
    StartedInv(c, s0);
    GoKeeps(c, s0.queue.queue, s0, ClientMoves(sched));
    s := Go(c, s0, ClientMoves(sched));
    assert s0.queue.log + Exec(c.cap, s0.queue.queue, sched).log == Exec(c.cap, s0.queue.queue, sched).log;
  }

  /** stop() then returns with nothing written at all, although r's call had returned true before it began. */
  lemma AcceptedLost(c: Config, s0: System, p: nat, a: ParsedMessage, r: nat, b: ParsedMessage) returns (after: seq<Move>)
    requires Started(c, s0) && 1 <= p < |s0.queue.queue.threads| && 1 <= r < |s0.queue.queue.threads| && p != r
    ensures NoNewCalls(after)
    ensures var s := Go(c, s0, ClientMoves(Overtaking(p, a, r, b)));
            && EnqueueReturned(r, b, true) in s.queue.log && s.stop.NotStopped? && Gap(s.queue.queue)
            && Go(c, s, [Stop] + after).stop.Stopped? && Go(c, s, [Stop] + after).journal.messages == []
  {
    var s := GapReached(c, s0, p, a, r, b);
    assert ProducerHolds(s.queue.queue.threads[p], 0);
    after := HeldTicketBlocks(c, s0.queue.queue, s, p, 0);
  }
}
