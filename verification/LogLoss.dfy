/**
 stop() loses nothing exactly when nobody is inside log() as it begins: from any other state there is a
 continuation, without any new call, after which an accepted message is missing from the file.
 */
module LogLoss {
  import opened Bits
  import opened QueueProtocol
  import opened QueueInvariant
  import opened QueueSafety
  import opened QueueDelivery
  import opened ItchMessages
  import opened LogSession
  import opened LogGuarantees
  import opened LogDrain

  // ---- Calls in flight finish, and at least one of them leaves its item behind ----

  function EnqueueRank<T>(pc: Pc<T>, head: nat): nat {
    match pc
    case EnqueueSeq(_, pos) => if pos == head then 6 else 9
    case EnqueueCas(_, pos) => if pos == head then 5 else 8
    case EnqueueReload(_, _) => 8
    case EnqueueWrite(_, _) => 3
    case EnqueueStore(_, _) => 2
    case _ => 0
  }

  lemma EnqueueShrinks<T>(cap: Capacity, q: Queue<T>, items: seq<T>, p: nat)
    requires cap >= 2 && Inv(cap, q, items) && p < |q.threads| && InEnqueue(q.threads[p])
    requires forall r :: 0 <= r < |q.threads| ==> !InDequeue(q.threads[r])
    ensures var q' := Step(cap, q, p, Run).0;
            && q'.threads == q.threads[p := q'.threads[p]]
            && EnqueueRank(q'.threads[p], q'.head) < EnqueueRank(q.threads[p], q.head)
            && !InDequeue(q'.threads[p])
            && q.head <= q'.head && q'.tail == q.tail
            && (InEnqueue(q'.threads[p]) || q'.head > q'.tail)
  {
    var pc := q.threads[p];
    assert ThreadOk(cap, q, items, pc);
    SeqAtHead(cap, q, items);
    IndexIsSlot(pc.pos, cap);
    if pc.EnqueueSeq? {
      EnqueueFailsExactly(cap, q, items, p);
    }
  }

  /** No log() call of another thread has moved, and the worker is gone. */
  ghost predicate OnlyMoved(s: System, r: System, p: nat) {
    && |r.queue.queue.threads| == |s.queue.queue.threads|
    && (forall o :: 0 <= o < |s.queue.queue.threads| && o != p ==> r.queue.queue.threads[o] == s.queue.queue.threads[o])
    && r.queue.queue.head >= s.queue.queue.head && r.queue.queue.tail == s.queue.queue.tail
    && r.stop == s.stop && r.worker == s.worker && r.running == s.running
  }

  lemma NobodyDequeues(c: Config, start: Queue<ParsedMessage>, s: System)
    requires CoreInv(c, start, s) && s.worker.Done?
    ensures forall r :: 0 <= r < |s.queue.queue.threads| ==> !InDequeue(s.queue.queue.threads[r])
  {
    SoleConsumerInOrder(c.cap, start, s.trace, 0);
  }

  lemma ClientOnce(c: Config, start: Queue<ParsedMessage>, s: System, p: nat) returns (r: System)
    requires CoreInv(c, start, s) && s.worker.Done? && 1 <= p < |s.queue.queue.threads| && InEnqueue(s.queue.queue.threads[p])
    ensures r == Next(c, s, Client(p, Run)) && CoreInv(c, start, r) && OnlyMoved(s, r, p)
    ensures EnqueueRank(r.queue.queue.threads[p], r.queue.queue.head) < EnqueueRank(s.queue.queue.threads[p], s.queue.queue.head)
    ensures InEnqueue(r.queue.queue.threads[p]) || r.queue.queue.head > r.queue.queue.tail
  {
    RunInv(c.cap, start, s.trace);
    NobodyDequeues(c, start, s);
    EnqueueShrinks(c.cap, s.queue.queue, Claims(s.queue.log), p);
    NextKeeps(c, start, s, Client(p, Run));
    r := Next(c, s, Client(p, Run));
  }

  /** p's call is over, and if there was one, the queue is not empty afterwards. */
  ghost predicate Finished(c: Config, start: Queue<ParsedMessage>, s: System, r: System, p: nat)
    requires p < |s.queue.queue.threads|
  {
    && CoreInv(c, start, r) && OnlyMoved(s, r, p) && !InEnqueue(r.queue.queue.threads[p])
    && (InEnqueue(s.queue.queue.threads[p]) || s.queue.queue.head > s.queue.queue.tail ==> r.queue.queue.head > r.queue.queue.tail)
  }

  /** Thread p's call runs to its end. */
  lemma FinishOne(c: Config, start: Queue<ParsedMessage>, s: System, p: nat) returns (moves: seq<Move>)
    requires CoreInv(c, start, s) && s.worker.Done? && 1 <= p < |s.queue.queue.threads|
    ensures NoNewCalls(moves) && Finished(c, start, s, Go(c, s, moves), p)
    decreases EnqueueRank(s.queue.queue.threads[p], s.queue.queue.head)
  {
    if !InEnqueue(s.queue.queue.threads[p]) {
      moves := [];
    } else {
      var r := ClientOnce(c, start, s, p);
      var rest := FinishOne(c, start, r, p);
      Prepend(c, s, Client(p, Run), rest);
      moves := [Client(p, Run)] + rest;
    }
  }

  /** The worker is done, every call is over, and a ticket is left in the queue. */
  ghost predicate Stranded(c: Config, start: Queue<ParsedMessage>, s: System) {
    CoreInv(c, start, s) && Quiet(s) && s.worker.Done? && s.queue.queue.head > s.queue.queue.tail
  }

  /** The worker is done, and so are the calls of the threads below p; a ticket is left in the queue. */
  ghost predicate PartlyStranded(c: Config, start: Queue<ParsedMessage>, s: System, p: nat) {
    && CoreInv(c, start, s) && s.worker.Done? && s.queue.queue.head > s.queue.queue.tail
    && 1 <= p <= |s.queue.queue.threads| && forall o :: 1 <= o < p ==> !InEnqueue(s.queue.queue.threads[o])
  }

  lemma StrandOneMore(c: Config, start: Queue<ParsedMessage>, s: System, r: System, p: nat)
    requires PartlyStranded(c, start, s, p) && p < |s.queue.queue.threads| && Finished(c, start, s, r, p)
    ensures PartlyStranded(c, start, r, p + 1) && r.stop == s.stop && |r.queue.queue.threads| == |s.queue.queue.threads|
  {
  }

  /** The calls of threads from p on run to their ends. */
  lemma FinishFrom(c: Config, start: Queue<ParsedMessage>, s: System, p: nat) returns (moves: seq<Move>)
    requires PartlyStranded(c, start, s, p)
    ensures NoNewCalls(moves) && Stranded(c, start, Go(c, s, moves)) && Go(c, s, moves).stop == s.stop
    decreases |s.queue.queue.threads| - p
  {
    if p == |s.queue.queue.threads| {
      moves := [];
    } else {
      var first := FinishOne(c, start, s, p);
      var r := Go(c, s, first);
      StrandOneMore(c, start, s, r, p);
      var rest := FinishFrom(c, start, r, p + 1);
      GoAppend(c, s, first, rest);
      moves := first + rest;
    }
  }

  /** After the join, stop() flushes and closes. */
  lemma CloseUp(c: Config, start: Queue<ParsedMessage>, s: System)
    requires CoreInv(c, start, s) && s.worker.Done? && s.stop.Joining?
    ensures var r := Go(c, s, [Stop, Stop]); r.stop.Stopped? && r.queue == s.queue && r.journal.messages == s.journal.messages
  {
    StopLocal(c, s);
    var s1 := Next(c, s, Stop);
    OneMove(c, s, Stop);
    OneMove(c, s1, Stop);
    GoAppend(c, s, [Stop], [Stop]);
    assert [Stop] + [Stop] == [Stop, Stop];
  }

  lemma LeftBehind(c: Config, start: Queue<ParsedMessage>, s: System, r: System)
    requires Stranded(c, start, s) && r.queue == s.queue && r.journal.messages == s.journal.messages
    ensures !NothingLost(r) && Quiet(r) && AcceptedExactly(r)
  {
    PrefixOfSent(c, start, s);
    QuietAccepted(c, start, s);
  }

  /** The worker has finished while p's call is still in flight. */
  ghost predicate LeftWaiting(c: Config, start: Queue<ParsedMessage>, s: System, p: nat) {
    CoreInv(c, start, s) && s.worker.Done? && s.stop.Joining? && 1 <= p < |s.queue.queue.threads| && InEnqueue(s.queue.queue.threads[p])
  }

  /** stop() begins: running_ is cleared and nothing else happens. */
  lemma BeginStop(c: Config, start: Queue<ParsedMessage>, s: System) returns (r: System)
    requires CoreInv(c, start, s) && s.stop.NotStopped?
    ensures r == Next(c, s, Stop) && CoreInv(c, start, r) && !r.running && r.stop.Joining? && r.queue == s.queue
  {
    NextKeeps(c, start, s, Stop);
    r := Next(c, s, Stop);
  }

  lemma StopAndDrain(c: Config, start: Queue<ParsedMessage>, s: System) returns (moves: seq<Move>)
    requires CoreInv(c, start, s) && s.stop.NotStopped?
    ensures NoNewCalls(moves)
    ensures var r := Go(c, Next(c, s, Stop), moves);
            && CoreInv(c, start, r) && r.worker.Done? && r.stop.Joining?
            && |r.queue.queue.threads| == |s.queue.queue.threads|
            && forall p :: 1 <= p < |s.queue.queue.threads| ==> r.queue.queue.threads[p] == s.queue.queue.threads[p]
  {
    var begun := BeginStop(c, start, s);
    var n := Drain(c, start, begun);
    moves := WorkerOnly(n);
  }

  lemma NotTheWorker(c: Config, start: Queue<ParsedMessage>, s: System, p: nat)
    requires CoreInv(c, start, s) && p < |s.queue.queue.threads| && InEnqueue(s.queue.queue.threads[p])
    ensures p >= 1
  {
  }

  /** ... then that call and all others end, with a ticket left in the queue ... */
  lemma FinishCalls(c: Config, start: Queue<ParsedMessage>, s: System, p: nat) returns (moves: seq<Move>)
    requires LeftWaiting(c, start, s, p)
    ensures NoNewCalls(moves) && Stranded(c, start, Go(c, s, moves)) && Go(c, s, moves).stop.Joining?
  {
    var m1 := FinishOne(c, start, s, p);
    var m2 := FinishFrom(c, start, Go(c, s, m1), 1);
    GoAppend(c, s, m1, m2);
    moves := m1 + m2;
  }

  /** ... and stop() returns. */
  lemma FinishAll(c: Config, start: Queue<ParsedMessage>, s: System, p: nat) returns (moves: seq<Move>)
    requires LeftWaiting(c, start, s, p)
    ensures NoNewCalls(moves)
    ensures var r := Go(c, s, moves); r.stop.Stopped? && Quiet(r) && AcceptedExactly(r) && !NothingLost(r)
  {
    var calls := FinishCalls(c, start, s, p);
    var r := Go(c, s, calls);
    CloseUp(c, start, r);
    LeftBehind(c, start, r, Go(c, r, [Stop, Stop]));
    GoAppend(c, s, calls, [Stop, Stop]);
    moves := calls + [Stop, Stop];
  }

  /** From a state with a log() call in flight, stop() can end with a claimed and accepted message never written. */
  lemma LossPossible(c: Config, start: Queue<ParsedMessage>, s: System) returns (after: seq<Move>)
    requires CoreInv(c, start, s) && s.stop.NotStopped? && !Quiet(s)
    ensures NoNewCalls(after)
    ensures var r := Go(c, s, [Stop] + after); r.stop.Stopped? && Quiet(r) && AcceptedExactly(r) && !NothingLost(r)
  {
    var p :| 0 <= p < |s.queue.queue.threads| && InEnqueue(s.queue.queue.threads[p]);
    NotTheWorker(c, start, s, p);
    var m1 := StopAndDrain(c, start, s);
    var s1 := Next(c, s, Stop);
    var m2 := FinishAll(c, start, Go(c, s1, m1), p);
    GoAppend(c, s1, m1, m2);
    after := m1 + m2;
    Prepend(c, s, Stop, after);
  }

  /** While some call holds ticket t unpublished, stop() can return with no ticket from t on written. */
  lemma HeldTicketBlocks(c: Config, start: Queue<ParsedMessage>, s: System, p: nat, t: nat) returns (after: seq<Move>)
    requires CoreInv(c, start, s) && s.stop.NotStopped? && p < |s.queue.queue.threads| && ProducerHolds(s.queue.queue.threads[p], t)
    ensures NoNewCalls(after)
    ensures var r := Go(c, s, [Stop] + after); r.stop.Stopped? && |r.journal.messages| <= t < |Sent(r)|
  {
    NotTheWorker(c, start, s, p);
    var m := StopAndDrain(c, start, s);
    var s1 := Next(c, s, Stop);
    var s2 := Go(c, s1, m);
    StillHeld(c, start, s2, p, t);
    CloseUp(c, start, s2);
    GoAppend(c, s1, m, [Stop, Stop]);
    after := m + [Stop, Stop];
    Prepend(c, s, Stop, after);
  }

  lemma StillHeld(c: Config, start: Queue<ParsedMessage>, s: System, p: nat, t: nat)
    requires CoreInv(c, start, s) && p < |s.queue.queue.threads| && ProducerHolds(s.queue.queue.threads[p], t)
    ensures |s.journal.messages| <= t < |Sent(s)|
  {
    RunInv(c.cap, start, s.trace);
    assert ThreadOk(c.cap, s.queue.queue, Claims(s.queue.log), s.queue.queue.threads[p]);
    PrefixOfSent(c, start, s);
  }

  /** Whatever happens after stop() begins, short of new calls: once all have returned, no message is lost, whenever accepted. */
  ghost predicate Lossless(c: Config, s: System)
    requires Live(c, s)
  {
    forall after :: NoNewCalls(after) && Go(c, s, [Stop] + after).stop.Stopped? && Quiet(Go(c, s, [Stop] + after))
      ==> NothingLost(Go(c, s, [Stop] + after))
  }

  /** stop() is safe exactly in the states where no log() call is in flight. */
  lemma StopExact(c: Config, s0: System, before: seq<Move>)
    requires Started(c, s0) && Go(c, s0, before).stop.NotStopped?
    ensures Lossless(c, Go(c, s0, before)) <==> Quiet(Go(c, s0, before))
  {
    var start, s := s0.queue.queue, Go(c, s0, before);
    StartedInv(c, s0);
    GoKeeps(c, start, s0, before);
    if Quiet(s) {
      forall after | NoNewCalls(after) && Go(c, s, [Stop] + after).stop.Stopped? && Quiet(Go(c, s, [Stop] + after))
        ensures NothingLost(Go(c, s, [Stop] + after))
      {
        OrderlyStop(c, start, s, after);
      }
    } else {
      var after := LossPossible(c, start, s);
      assert NoNewCalls(after);
    }
  }
}
