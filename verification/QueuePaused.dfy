/**
 Failures the queue's interface does not announce: a thread paused between its claim and its sequence store makes
 try_dequeue fail on a queue that is not empty, and try_enqueue on one that is not full.
 */
module QueuePaused {
  import opened Bits
  import opened QueueProtocol
  import opened QueueInvariant
  import opened QueueSolo
  import opened QueueSafety

  /** A call that is paused right after its claim. */
  function HalfEnqueue<T>(p: nat, item: T): Schedule<T> {
    [(p, CallEnqueue(item))] + Alone(p, 2)
  }

  function HalfDequeue<T>(p: nat): Schedule<T> {
    [(p, CallDequeue)] + Alone(p, 2)
  }

  lemma TwoSteps<T>(cap: Capacity, q: Queue<T>, p: nat, q1: Queue<T>, q2: Queue<T>, e1: Event<T>, e2: Event<T>)
    requires Shape(cap, q) && Shape(cap, q1)
    requires Step(cap, q, p, Run) == (q1, e1) && Step(cap, q1, p, Run) == (q2, e2)
    ensures Exec(cap, q, Alone(p, 2)) == Outcome(q2, [e1, e2])
  {
    ExecAlone(cap, q, p, 1);
    assert Exec(cap, q, Alone(p, 1)) == Outcome(q1, [e1]);
    ExecAlone(cap, q, p, 2);
  }

  lemma ClaimsInTwo<T>(cap: Capacity, q: Queue<T>, p: nat, item: T)
    requires Shape(cap, q) && p < |q.threads| && q.threads[p] == EnqueueSeq(item, q.head) && SeqAt(cap, q, q.head) == q.head
    ensures Exec(cap, q, Alone(p, 2)).queue == Goto(q, p, EnqueueWrite(item, q.head)).(head := q.head + 1)
  {
    IndexIsSlot(q.head, cap);
    var q1, q2 := Goto(q, p, EnqueueCas(item, q.head)), Goto(q, p, EnqueueWrite(item, q.head)).(head := q.head + 1);
    assert q1.threads[p := EnqueueWrite(item, q.head)] == q2.threads;
    TwoSteps(cap, q, p, q1, q2, Silent, Claimed(p, item));
  }

  lemma PausedEnqueue<T>(cap: Capacity, q: Queue<T>, p: nat, item: T)
    requires Shape(cap, q) && p < |q.threads| && q.threads[p].Idle? && SeqAt(cap, q, q.head) == q.head
    ensures Exec(cap, q, HalfEnqueue(p, item)).queue == Goto(q, p, EnqueueWrite(item, q.head)).(head := q.head + 1)
  {
    var called := Goto(q, p, EnqueueSeq(item, q.head));
    CallThen(cap, q, p, CallEnqueue(item), 2);
    ClaimsInTwo(cap, called, p, item);
    assert called.threads[p := EnqueueWrite(item, q.head)] == q.threads[p := EnqueueWrite(item, q.head)];
  }

  lemma TakesInTwo<T>(cap: Capacity, q: Queue<T>, p: nat)
    requires Shape(cap, q) && p < |q.threads| && q.threads[p] == DequeueSeq(q.tail) && SeqAt(cap, q, q.tail) == q.tail + 1
    ensures Exec(cap, q, Alone(p, 2)).queue == Goto(q, p, DequeueRead(q.tail)).(tail := q.tail + 1)
  {
    IndexIsSlot(q.tail, cap);
    var q1, q2 := Goto(q, p, DequeueCas(q.tail)), Goto(q, p, DequeueRead(q.tail)).(tail := q.tail + 1);
    assert q1.threads[p := DequeueRead(q.tail)] == q2.threads;
    TwoSteps(cap, q, p, q1, q2, Silent, Taken(p));
  }

  lemma PausedDequeue<T>(cap: Capacity, q: Queue<T>, p: nat)
    requires Shape(cap, q) && p < |q.threads| && q.threads[p].Idle? && SeqAt(cap, q, q.tail) == q.tail + 1
    ensures Exec(cap, q, HalfDequeue(p)).queue == Goto(q, p, DequeueRead(q.tail)).(tail := q.tail + 1)
  {
    var called := Goto(q, p, DequeueSeq(q.tail));
    CallThen(cap, q, p, CallDequeue, 2);
    TakesInTwo(cap, called, p);
    assert called.threads[p := DequeueRead(q.tail)] == q.threads[p := DequeueRead(q.tail)];
  }

  // ---- A producer paused before its publication ----

  /** p claims ticket 0 and pauses; r enqueues b. */
  function Overtaking<T>(p: nat, a: T, r: nat, b: T): Schedule<T> {
    HalfEnqueue(p, a) + LoneEnqueue(r, b)
  }

  /** Ticket 0 is held by p although ticket 1, of r, is published and its call has returned true. */
  lemma Overtakes<T>(cap: Capacity, q: Queue<T>, p: nat, a: T, r: nat, b: T)
    requires cap >= 2 && Initial(cap, q) && p < |q.threads| && r < |q.threads| && p != r
    ensures var x := Exec(cap, q, Overtaking(p, a, r, b));
            && x.queue.threads == q.threads[p := EnqueueWrite(a, 0)]
            && x.queue.head == 2 && x.queue.tail == 0 && x.queue.sequences == q.sequences[1 := 2]
            && Published(cap, x.queue, 1) && ItemAt(cap, x.queue, 1) == b
            && |x.log| > 0 && x.log[|x.log| - 1] == EnqueueReturned(r, b, true)
  {
    PausedEnqueue(cap, q, p, a);
    var half := Exec(cap, q, HalfEnqueue(p, a)).queue;
    assert Slot(1, cap) == 1;
    CallEnqueueAlone(cap, half, r, b);
    ExecAppend(cap, q, HalfEnqueue(p, a), LoneEnqueue(r, b));
  }

  /** A call whose first load shows that it must fail. */
  function FailingDequeue<T>(p: nat): Schedule<T> {
    [(p, CallDequeue)] + [(p, Run)]
  }

  function FailingEnqueue<T>(p: nat, item: T): Schedule<T> {
    [(p, CallEnqueue(item))] + [(p, Run)]
  }

  lemma FailsAtOnce<T>(cap: Capacity, q: Queue<T>, p: nat)
    requires Shape(cap, q) && p < |q.threads| && q.threads[p].Idle? && SeqAt(cap, q, q.tail) <= q.tail
    ensures Exec(cap, q, FailingDequeue(p)) == Outcome(q, [DequeueCalled(p), DequeueFailed(p)])
  {
    OneStep(cap, q, p, CallDequeue);
    IndexIsSlot(q.tail, cap);
    var called := Goto(q, p, DequeueSeq(q.tail));
    OneStep(cap, called, p, Run);
    assert called.threads[p := Idle] == q.threads;
    ExecAppend(cap, q, [(p, CallDequeue)], [(p, Run)]);
  }

  lemma EnqueueFailsAtOnce<T>(cap: Capacity, q: Queue<T>, p: nat, item: T)
    requires Shape(cap, q) && p < |q.threads| && q.threads[p].Idle? && SeqAt(cap, q, q.head) < q.head
    ensures Exec(cap, q, FailingEnqueue(p, item)) == Outcome(q, [EnqueueCalled(p, item), EnqueueReturned(p, item, false)])
  {
    OneStep(cap, q, p, CallEnqueue(item));
    IndexIsSlot(q.head, cap);
    var called := Goto(q, p, EnqueueSeq(item, q.head));
    OneStep(cap, called, p, Run);
    assert called.threads[p := Idle] == q.threads;
    ExecAppend(cap, q, [(p, CallEnqueue(item))], [(p, Run)]);
  }

  /** r's try_dequeue fails although the item r has just enqueued with success is still queued. */
  lemma FailsThoughNotEmpty<T>(cap: Capacity, q: Queue<T>, p: nat, a: T, r: nat, b: T)
    requires cap >= 2 && Initial(cap, q) && p < |q.threads| && r < |q.threads| && p != r
    ensures var x := Exec(cap, q, Overtaking(p, a, r, b) + FailingDequeue(r)); var n := |x.log|;
            && n >= 3 && x.log[n - 3..] == [EnqueueReturned(r, b, true), DequeueCalled(r), DequeueFailed(r)]
            && x.queue.tail < x.queue.head && Published(cap, x.queue, 1) && ItemAt(cap, x.queue, 1) == b
  {
    Overtakes(cap, q, p, a, r, b);
    var x := Exec(cap, q, Overtaking(p, a, r, b));
    assert Slot(0, cap) == 0;
    FailsAtOnce(cap, x.queue, r);
    ExecAppend(cap, q, Overtaking(p, a, r, b), FailingDequeue(r));
  }

  // ---- A consumer paused before its release ----

  lemma FirstPublished<T>(cap: Capacity, q: Queue<T>, items: seq<T>)
    requires Inv(cap, q, items) && q.tail < q.head && forall p :: 0 <= p < |q.threads| ==> q.threads[p].Idle?
    ensures SeqAt(cap, q, q.tail) == q.tail + 1
  {
    assert TicketOk(cap, q, items, q.tail);
  }

  /** p fills the ring, then r takes ticket 0 and pauses. */
  function FullThenTaken<T>(cap: nat, p: nat, item: T, r: nat): Schedule<T> {
    Enqueues(p, item, cap) + HalfDequeue(r)
  }

  lemma TakesOne<T>(cap: Capacity, q: Queue<T>, p: nat, item: T, r: nat)
    requires cap >= 2 && Initial(cap, q) && p < |q.threads| && r < |q.threads| && p != r
    ensures var x := Exec(cap, q, FullThenTaken(cap, p, item, r)).queue;
            x.threads == q.threads[r := DequeueRead(0)] && x.head == cap && x.tail == 1 && SeqAt(cap, x, 0) == 1
  {
    var s := Enqueues(p, item, cap);
    FillUp(cap, q, p, item, cap);
    RunInv(cap, q, s);
    var full := Exec(cap, q, s);
    FirstPublished(cap, full.queue, Claims(full.log));
    PausedDequeue(cap, full.queue, r);
    ExecAppend(cap, q, s, HalfDequeue(r));
  }

  /** p's try_enqueue fails although one of the Capacity items has been taken. */
  lemma FailsThoughNotFull<T>(cap: Capacity, q: Queue<T>, p: nat, item: T, r: nat)
    requires cap >= 2 && Initial(cap, q) && p < |q.threads| && r < |q.threads| && p != r
    ensures var x := Exec(cap, q, FullThenTaken(cap, p, item, r) + FailingEnqueue(p, item)); var n := |x.log|;
            && n >= 2 && x.log[n - 2..] == [EnqueueCalled(p, item), EnqueueReturned(p, item, false)]
            && x.queue.head - x.queue.tail == cap - 1
  {
    TakesOne(cap, q, p, item, r);
    var x := Exec(cap, q, FullThenTaken(cap, p, item, r)).queue;
    SlotPeriod(0, cap);
    EnqueueFailsAtOnce(cap, x, p, item);
    ExecAppend(cap, q, FullThenTaken(cap, p, item, r), FailingEnqueue(p, item));
  }
}
