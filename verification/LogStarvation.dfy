/** Why stop() needs log() callers to cease: one that goes on logging keeps the worker draining as long as it likes. */
module LogStarvation {
  import opened Bits
  import opened QueueProtocol
  import opened QueueInvariant
  import opened QueueSafety
  import opened QueueSolo
  import opened QueueDelivery
  import opened ItchMessages
  import opened LogSession
  import opened LogGuarantees
  import opened LogDrain

  // ---- Moves and steps ----

  lemma {:induction false} StepsAppend(a: seq<Move>, b: seq<Move>, spurious: bool)
    ensures Steps(a + b, spurious) == Steps(a, spurious) + Steps(b, spurious)
    decreases |b|
  {
    if b == [] {
      assert a + b == a;
    } else {
      StepsAppend(a, b[..|b| - 1], spurious);
      assert (a + b)[..|a + b| - 1] == a + b[..|b| - 1];
    }
  }

  /** A queue schedule of clients as moves of the session. */
  function ClientMoves(sched: Schedule<ParsedMessage>): (moves: seq<Move>)
    ensures |moves| == |sched| && forall k :: 0 <= k < |sched| ==> moves[k] == Client(sched[k].0, sched[k].1)
  {
    seq(|sched|, k requires 0 <= k < |sched| => Client(sched[k].0, sched[k].1))
  }

  lemma {:induction false} ClientsDoNotWork(moves: seq<Move>, spurious: bool)
    requires forall k :: 0 <= k < |moves| ==> moves[k].Client?
    ensures Steps(moves, spurious) == 0
  {
    if moves != [] {
      ClientsDoNotWork(moves[..|moves| - 1], spurious);
    }
  }

  ghost predicate ByClients(sched: Schedule<ParsedMessage>) {
    forall k :: 0 <= k < |sched| ==> sched[k].0 != 0 && !sched[k].1.CallDequeue?
  }

  /** A schedule of clients changes the queue as it would alone, and nothing else. */
  lemma {:induction false} ClientsGo(c: Config, s: System, sched: Schedule<ParsedMessage>)
    requires Live(c, s) && ByClients(sched)
    ensures var r := Go(c, s, ClientMoves(sched)); var x := Exec(c.cap, s.queue.queue, sched);
            && r.queue == Outcome(x.queue, s.queue.log + x.log)
            && r.worker == s.worker && r.running == s.running && r.stop == s.stop
  {
    if sched != [] {
      var init := sched[..|sched| - 1];
      ClientsGo(c, s, init);
      var moves := ClientMoves(sched);
      assert moves[..|moves| - 1] == ClientMoves(init);
      assert moves[|moves| - 1] == Client(sched[|sched| - 1].0, sched[|sched| - 1].1);
    }
  }

  // ---- One more message ----

  /** stop() has begun, the worker is not done, and no client is in the queue. */
  ghost predicate Draining(c: Config, start: Queue<ParsedMessage>, s: System) {
    && CoreInv(c, start, s) && !s.running && !s.worker.Done?
    && forall o :: 1 <= o < |s.queue.queue.threads| ==> s.queue.queue.threads[o].Idle?
  }

  /** The worker holds no ticket but the last it took, so an empty queue has a free slot. */
  lemma EmptyHasRoom(c: Config, start: Queue<ParsedMessage>, s: System)
    requires Draining(c, start, s) && s.queue.queue.head == s.queue.queue.tail
    ensures var q := s.queue.queue; SeqAt(c.cap, q, q.head) == q.head
  {
    RunInv(c.cap, start, s.trace);
    SoleConsumerInOrder(c.cap, start, s.trace, 0);
    var q := s.queue.queue;
    HoldsLast(DeliveredTickets(s.queue.log), TakenBy(q.threads[0]), q.tail);
    SeqAtHead(c.cap, q, Claims(s.queue.log));
  }

  lemma HoldsLast(d: seq<nat>, held: seq<nat>, n: nat)
    requires d + held == Range(n) && |held| <= 1
    ensures held != [] ==> n > 0 && held[0] == n - 1
  {
    if held != [] {
      assert (d + held)[|d|] == held[0] && |d + held| == n;
    }
  }

  lemma LogOne(c: Config, start: Queue<ParsedMessage>, s: System, p: nat, msg: ParsedMessage) returns (moves: seq<Move>)
    requires Draining(c, start, s) && 1 <= p < |s.queue.queue.threads| && s.queue.queue.head == s.queue.queue.tail
    ensures var r := Go(c, s, moves); Draining(c, start, r) && r.queue.queue.head > r.queue.queue.tail
    ensures |Go(c, s, moves).queue.queue.threads| == |s.queue.queue.threads|
    ensures Steps(moves, false) == 0 && Steps(moves, true) == 0
  {
    var sched := LoneEnqueue(p, msg);
    EmptyHasRoom(c, start, s);
    CallEnqueueAlone(c.cap, s.queue.queue, p, msg);
    LoneSteps(p, msg);
    ClientsGo(c, s, sched);
    moves := ClientMoves(sched);
    GoKeeps(c, start, s, moves);
    ClientsDoNotWork(moves, false);
    ClientsDoNotWork(moves, true);
  }

  lemma LoneSteps(p: nat, msg: ParsedMessage)
    requires p != 0
    ensures ByClients(LoneEnqueue(p, msg))
  {
    AloneRuns<ParsedMessage>(p, 4);
  }

  lemma NotEmpty<T>(cap: Capacity, q: Queue<T>, items: seq<T>)
    requires cap >= 2 && Inv(cap, q, items) && |q.threads| >= 1 && q.threads[0].DequeueSeq? && q.head > q.tail
    requires forall o :: 1 <= o < |q.threads| ==> q.threads[o].Idle?
    ensures !Step(cap, q, 0, Run).1.DequeueFailed?
  {
    DequeueFailsExactly(cap, q, items, 0);
  }

  /** With a published ticket in the queue the worker's call does not fail. */
  lemma DequeueGoesOn(c: Config, start: Queue<ParsedMessage>, s: System)
    requires Draining(c, start, s) && s.worker.Dequeuing? && s.queue.queue.head > s.queue.queue.tail
    ensures !Step(c.cap, s.queue.queue, 0, Run).1.DequeueFailed?
  {
    RunInv(c.cap, start, s.trace);
    var q := s.queue.queue;
    DequeueProgresses(c.cap, q, Claims(s.queue.log), false);
    if q.threads[0].DequeueSeq? {
      NotEmpty(c.cap, q, Claims(s.queue.log));
    }
  }

  lemma NotDone(c: Config, s: System)
    requires Live(c, s) && !s.worker.Done?
    requires s.worker.Dequeuing? ==> !Step(c.cap, s.queue.queue, 0, Run).1.DequeueFailed?
    ensures !WorkerStep(c, s, false).worker.Done?
  {
  }

  /** While a ticket is published the worker's step does not end its loop. */
  lemma WorkGoesOn(c: Config, start: Queue<ParsedMessage>, s: System) returns (r: System)
    requires Draining(c, start, s) && s.queue.queue.head > s.queue.queue.tail
    ensures r == Next(c, s, Work(false)) && Draining(c, start, r) && |r.queue.queue.threads| == |s.queue.queue.threads|
  {
    r := WorkOnce(c, start, s);
    if s.worker.Dequeuing? {
      DequeueGoesOn(c, start, s);
    }
    NotDone(c, s);
  }

  lemma StepsSnoc(moves: seq<Move>, spurious: bool)
    ensures Steps(moves + [Work(false)], spurious) == Steps(moves, spurious) + (if spurious then 0 else 1)
  {
    var all := moves + [Work(false)];
    assert all[..|all| - 1] == moves;
  }

  /** A message if the queue is empty. */
  lemma Refill(c: Config, start: Queue<ParsedMessage>, s: System, p: nat, msg: ParsedMessage) returns (moves: seq<Move>)
    requires Draining(c, start, s) && 1 <= p < |s.queue.queue.threads|
    ensures var r := Go(c, s, moves);
            Draining(c, start, r) && r.queue.queue.head > r.queue.queue.tail && |r.queue.queue.threads| == |s.queue.queue.threads|
    ensures Steps(moves, false) == 0 && Steps(moves, true) == 0
  {
    PrefixOfSent(c, start, s);
    if s.queue.queue.head == s.queue.queue.tail {
      moves := LogOne(c, start, s, p, msg);
    } else {
      moves := [];
    }
  }

  /** One more step of the worker, after one more message if the queue was empty. */
  lemma OneMore(c: Config, start: Queue<ParsedMessage>, s: System, p: nat, msg: ParsedMessage) returns (moves: seq<Move>)
    requires Draining(c, start, s) && 1 <= p < |s.queue.queue.threads|
    ensures var r := Go(c, s, moves); Draining(c, start, r) && |r.queue.queue.threads| == |s.queue.queue.threads|
    ensures Steps(moves, false) == 1 && Steps(moves, true) == 0
  {
    var first := Refill(c, start, s, p, msg);
    var r := Go(c, s, first);
    var r' := WorkGoesOn(c, start, r);
    OneMove(c, r, Work(false));
    GoAppend(c, s, first, [Work(false)]);
    StepsSnoc(first, false);
    StepsSnoc(first, true);
    moves := first + [Work(false)];
  }

  /** However many steps the worker takes, new calls can keep it from its end ... */
  lemma {:induction false} KeptDraining(c: Config, start: Queue<ParsedMessage>, s: System, p: nat, msg: ParsedMessage, n: nat) returns (moves: seq<Move>)
    requires Draining(c, start, s) && 1 <= p < |s.queue.queue.threads|
    ensures Draining(c, start, Go(c, s, moves)) && |Go(c, s, moves).queue.queue.threads| == |s.queue.queue.threads|
    ensures Steps(moves, false) == n && Steps(moves, true) == 0
  {
    if n == 0 {
      moves := [];
    } else {
      var init := KeptDraining(c, start, s, p, msg, n - 1);
      var last := OneMore(c, start, Go(c, s, init), p, msg);
      GoAppend(c, s, init, last);
      StepsAppend(init, last, false);
      StepsAppend(init, last, true);
      moves := init + last;
    }
  }

  /** ... so that stop() does not return: the bound of StopReturns needs its hypothesis. */
  lemma StopKeptWaiting(c: Config, s0: System, p: nat, msg: ParsedMessage, n: nat) returns (moves: seq<Move>)
    requires Started(c, s0) && 1 <= p < |s0.queue.queue.threads|
    ensures Steps(moves, false) == n && Steps(moves, true) == 0
    ensures var r := Go(c, s0, [Stop] + moves); !r.worker.Done? && !r.stop.Closing? && !r.stop.Stopped?
  {
    var start := s0.queue.queue;
    StartedInv(c, s0);
    NextKeeps(c, start, s0, Stop);
    var begun := Next(c, s0, Stop);
    moves := KeptDraining(c, start, begun, p, msg, n);
    OneMove(c, s0, Stop);
    GoAppend(c, s0, [Stop], moves);
  }
}
