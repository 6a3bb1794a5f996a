/** Calls that run alone from start to finish: the building blocks of concrete runs. */
module QueueSolo {
  import opened Bits
  import opened QueueProtocol
  import opened QueueInvariant

  /** p takes k steps in a row. */
  function Alone<T>(p: nat, k: nat): (s: Schedule<T>)
    ensures |s| == k
  {
    if k == 0 then [] else Alone(p, k - 1) + [(p, Run)]
  }

  lemma {:induction false} AloneRuns<T>(p: nat, k: nat)
    ensures forall i :: 0 <= i < k ==> Alone<T>(p, k)[i] == (p, Run)
  {
    if k > 0 {
      AloneRuns<T>(p, k - 1);
    }
  }

  lemma ExecAlone<T>(cap: Capacity, q: Queue<T>, p: nat, k: nat)
    requires Shape(cap, q) && k >= 1
    ensures var before := Exec(cap, q, Alone(p, k - 1)); var (next, e) := Step(cap, before.queue, p, Run);
            Exec(cap, q, Alone(p, k)) == Outcome(next, before.log + [e])
  {
    var s: Schedule<T> := Alone(p, k);
    assert s[..|s| - 1] == Alone(p, k - 1);
  }

  ghost predicate EnqueueDone<T>(cap: Capacity, q: Queue<T>, r: Outcome<T>, p: nat, item: T)
    requires Shape(cap, q) && Shape(cap, r.queue) && p < |q.threads|
  {
    && r.queue.threads == q.threads[p := Idle]
    && r.queue.head == q.head + 1 && r.queue.tail == q.tail
    && r.queue.buffer == q.buffer[Slot(q.head, cap) := item]
    && r.queue.sequences == q.sequences[Slot(q.head, cap) := q.head + 1]
    && r.log == [Silent, Claimed(p, item), Silent, EnqueueReturned(p, item, true)]
  }

  /** try_enqueue alone, when the slot of the next ticket is free: one pass of the loop, four more steps. */
  lemma SoloEnqueue<T>(cap: Capacity, q: Queue<T>, p: nat, item: T)
    requires Shape(cap, q) && p < |q.threads| && q.threads[p] == EnqueueSeq(item, q.head)
    requires SeqAt(cap, q, q.head) == q.head
    ensures EnqueueDone(cap, q, Exec(cap, q, Alone(p, 4)), p, item)
  {
    IndexIsSlot(q.head, cap);
    var q1 := Goto(q, p, EnqueueCas(item, q.head));
    assert Step(cap, q, p, Run) == (q1, Silent);
    var q2 := Goto(q, p, EnqueueWrite(item, q.head)).(head := q.head + 1);
    assert Step(cap, q1, p, Run) == (q2, Claimed(p, item)) by { assert q1.threads[p := EnqueueWrite(item, q.head)] == q2.threads; }
    var q3 := Goto(q2, p, EnqueueStore(item, q.head)).(buffer := q.buffer[Index(q.head, cap) := item]);
    assert Step(cap, q2, p, Run) == (q3, Silent);
    var q4 := Goto(q3, p, Idle).(sequences := q.sequences[Index(q.head, cap) := q.head + 1]);
    assert Step(cap, q3, p, Run) == (q4, EnqueueReturned(p, item, true));
    FourSteps(cap, q, p, q1, q2, q3, q4, Silent, Claimed(p, item), Silent, EnqueueReturned(p, item, true));
    assert q4.threads == q.threads[p := Idle];
  }

  lemma FourSteps<T>(cap: Capacity, q: Queue<T>, p: nat, q1: Queue<T>, q2: Queue<T>, q3: Queue<T>, q4: Queue<T>,
                     e1: Event<T>, e2: Event<T>, e3: Event<T>, e4: Event<T>)
    requires Shape(cap, q) && Shape(cap, q1) && Shape(cap, q2) && Shape(cap, q3)
    requires Step(cap, q, p, Run) == (q1, e1) && Step(cap, q1, p, Run) == (q2, e2)
    requires Step(cap, q2, p, Run) == (q3, e3) && Step(cap, q3, p, Run) == (q4, e4)
    ensures Exec(cap, q, Alone(p, 4)) == Outcome(q4, [e1, e2, e3, e4])
  {
    ExecAlone(cap, q, p, 1);
    assert Exec(cap, q, Alone(p, 1)) == Outcome(q1, [e1]);
    ExecAlone(cap, q, p, 2);
    assert Exec(cap, q, Alone(p, 2)) == Outcome(q2, [e1, e2]);
    ExecAlone(cap, q, p, 3);
    assert Exec(cap, q, Alone(p, 3)) == Outcome(q3, [e1, e2, e3]);
    ExecAlone(cap, q, p, 4);
  }

  ghost predicate DequeueDone<T>(cap: Capacity, q: Queue<T>, r: Outcome<T>, p: nat, item: T)
    requires Shape(cap, q) && Shape(cap, r.queue) && p < |q.threads|
  {
    && r.queue.threads == q.threads[p := Idle]
    && r.queue.head == q.head && r.queue.tail == q.tail + 1
    && r.log == [Silent, Taken(p), Silent, DequeueReturned(p, q.tail, item)]
  }

  /** try_dequeue alone, when the oldest ticket is published. */
  lemma SoloDequeue<T>(cap: Capacity, q: Queue<T>, p: nat)
    requires Shape(cap, q) && p < |q.threads| && q.threads[p] == DequeueSeq(q.tail)
    requires SeqAt(cap, q, q.tail) == q.tail + 1
    ensures DequeueDone(cap, q, Exec(cap, q, Alone(p, 4)), p, ItemAt(cap, q, q.tail))
  {
    IndexIsSlot(q.tail, cap);
    var item := ItemAt(cap, q, q.tail);
    var q1 := Goto(q, p, DequeueCas(q.tail));
    assert Step(cap, q, p, Run) == (q1, Silent);
    var q2 := Goto(q, p, DequeueRead(q.tail)).(tail := q.tail + 1);
    assert Step(cap, q1, p, Run) == (q2, Taken(p)) by { assert q1.threads[p := DequeueRead(q.tail)] == q2.threads; }
    var q3 := Goto(q2, p, DequeueStore(q.tail, item));
    assert Step(cap, q2, p, Run) == (q3, Silent);
    var q4 := Goto(q3, p, Idle).(sequences := q.sequences[Index(q.tail, cap) := q.tail + cap]);
    assert Step(cap, q3, p, Run) == (q4, DequeueReturned(p, q.tail, item));
    FourSteps(cap, q, p, q1, q2, q3, q4, Silent, Taken(p), Silent, DequeueReturned(p, q.tail, item));
    assert q4.threads == q.threads[p := Idle];
  }

  lemma OneStep<T>(cap: Capacity, q: Queue<T>, p: nat, a: Action<T>)
    requires Shape(cap, q)
    ensures Exec(cap, q, [(p, a)]) == var (q', e) := Step(cap, q, p, a); Outcome(q', [e])
  {
    var s := [(p, a)];
    assert s[..|s| - 1] == [];
    assert Exec(cap, q, s[..|s| - 1]) == Outcome(q, []);
  }

  /** One try_enqueue, or one try_dequeue, from its call to its return. */
  function LoneEnqueue<T>(p: nat, item: T): Schedule<T> {
    [(p, CallEnqueue(item))] + Alone(p, 4)
  }

  function LoneDequeue<T>(p: nat): Schedule<T> {
    [(p, CallDequeue)] + Alone(p, 4)
  }

  /** A call and k steps of its thread. */
  lemma CallThen<T>(cap: Capacity, q: Queue<T>, p: nat, call: Action<T>, k: nat)
    requires Shape(cap, q)
    ensures var (called, e) := Step(cap, q, p, call); var r := Exec(cap, called, Alone(p, k));
            Exec(cap, q, [(p, call)] + Alone(p, k)) == Outcome(r.queue, [e] + r.log)
  {
    OneStep(cap, q, p, call);
    ExecAppend(cap, q, [(p, call)], Alone(p, k));
  }

  /** The queue with one more published item, and the events of the call that put it there. */
  ghost predicate Enqueued<T>(cap: Capacity, q: Queue<T>, r: Outcome<T>, a: nat, item: T)
    requires Shape(cap, q) && Shape(cap, r.queue)
  {
    && r.queue.threads == q.threads && r.queue.head == q.head + 1 && r.queue.tail == q.tail
    && r.queue.buffer == q.buffer[Slot(q.head, cap) := item]
    && r.queue.sequences == q.sequences[Slot(q.head, cap) := q.head + 1]
    && r.log == [EnqueueCalled(a, item), Silent, Claimed(a, item), Silent, EnqueueReturned(a, item, true)]
  }

  lemma DoneIsEnqueued<T>(cap: Capacity, q: Queue<T>, r: Outcome<T>, a: nat, item: T)
    requires Shape(cap, q) && Shape(cap, r.queue) && a < |q.threads| && q.threads[a].Idle?
    requires EnqueueDone(cap, Goto(q, a, EnqueueSeq(item, q.head)), r, a, item)
    ensures Enqueued(cap, q, Outcome(r.queue, [EnqueueCalled(a, item)] + r.log), a, item)
  {
    assert q.threads[a := EnqueueSeq(item, q.head)][a := Idle] == q.threads;
  }

  lemma CallsEnqueue<T>(cap: Capacity, q: Queue<T>, a: nat, item: T)
    requires Shape(cap, q) && a < |q.threads| && q.threads[a].Idle?
    ensures Step(cap, q, a, CallEnqueue(item)) == (Goto(q, a, EnqueueSeq(item, q.head)), EnqueueCalled(a, item))
  {
  }

  lemma CallEnqueueAlone<T>(cap: Capacity, q: Queue<T>, a: nat, item: T)
    requires Shape(cap, q) && a < |q.threads| && q.threads[a].Idle? && SeqAt(cap, q, q.head) == q.head
    ensures Enqueued(cap, q, Exec(cap, q, LoneEnqueue(a, item)), a, item)
  {
    var called := Goto(q, a, EnqueueSeq(item, q.head));
    CallsEnqueue(cap, q, a, item);
    CallThen(cap, q, a, CallEnqueue(item), 4);
    SoloEnqueue(cap, called, a, item);
    DoneIsEnqueued(cap, q, Exec(cap, called, Alone(a, 4)), a, item);
  }

  lemma CallDequeueAlone<T>(cap: Capacity, q: Queue<T>, b: nat)
    requires Shape(cap, q) && b < |q.threads| && q.threads[b].Idle? && SeqAt(cap, q, q.tail) == q.tail + 1
    ensures var r := Exec(cap, q, LoneDequeue(b)).queue;
            r.threads == q.threads && r.head == q.head && r.tail == q.tail + 1
  {
    CallThen(cap, q, b, CallDequeue, 4);
    var called := Goto(q, b, DequeueSeq(q.tail));
    SoloDequeue(cap, called, b);
    assert called.threads[b := Idle] == q.threads;
  }
}
