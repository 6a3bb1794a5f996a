/** The static_assert admits a capacity of one, for which the ring does not work; it works exactly from two on. */
module QueueCapacity {
  import opened Bits
  import opened QueueProtocol
  import opened QueueInvariant
  import opened QueueSolo

  /** No run puts more than Capacity items in the queue. */
  ghost predicate NeverOverfull(cap: Capacity) {
    forall q: Queue<int>, s: Schedule<int> :: Initial(cap, q) ==> Exec(cap, q, s).queue.head <= Exec(cap, q, s).queue.tail + cap
  }

  ghost function EmptyRing(cap: Capacity): (q: Queue<int>)
    ensures Initial(cap, q) && q.threads == [Idle]
  {
    Queue(0, 0, seq(cap, i => 0), seq(cap, i => i), [Idle])
  }

  /** Two try_enqueue calls by one thread. */
  function TwoEnqueues(a: int, b: int): Schedule<int> {
    LoneEnqueue(0, a) + LoneEnqueue(0, b)
  }

  /** With one slot a second enqueue succeeds on a full queue, overwriting the first item. */
  lemma SecondEnqueueSucceeds(a: int, b: int)
    ensures var r := Exec(1, EmptyRing(1), TwoEnqueues(a, b));
            r.queue.threads == [Idle] && r.queue.head == 2 && r.queue.tail == 0
            && r.queue.buffer == [b] && r.queue.sequences == [2]
            && EnqueueReturned(0, a, true) in r.log && EnqueueReturned(0, b, true) in r.log
  {
    var first := LoneEnqueue(0, a);
    CallEnqueueAlone(1, EmptyRing(1), 0, a);
    var r := Exec(1, EmptyRing(1), first).queue;
    CallEnqueueAlone(1, r, 0, b);
    ExecAppend(1, EmptyRing(1), first, LoneEnqueue(0, b));
  }

  lemma TwoSlotsSuffice(cap: Capacity)
    requires cap >= 2
    ensures NeverOverfull(cap)
  {
    forall q: Queue<int>, s: Schedule<int> | Initial(cap, q)
      ensures Exec(cap, q, s).queue.head <= Exec(cap, q, s).queue.tail + cap
    {
      RunInv(cap, q, s);
    }
  }

  lemma OneSlotOverfills()
    ensures !NeverOverfull(1)
  {
    SecondEnqueueSucceeds(1, 2);
    assert Exec(1, EmptyRing(1), TwoEnqueues(1, 2)).queue.head == 2;
  }

  lemma CapacityExact(cap: Capacity)
    ensures NeverOverfull(cap) <==> cap >= 2
  {
    if cap >= 2 {
      TwoSlotsSuffice(cap);
    } else {
      OneSlotOverfills();
    }
  }

  lemma SpinStep(q: Queue<int>)
    requires Shape(1, q) && q.threads == [DequeueSeq(0)] && q.tail == 0 && q.sequences[0] == 2
    ensures var q' := Goto(q, 0, DequeueReload(0));
            Step(1, q, 0, Run) == (q', Silent) && Step(1, q', 0, Run) == (q, Retried(0))
  {
    assert Index(0, 1) == 0;
    assert Goto(Goto(q, 0, DequeueReload(0)), 0, DequeueSeq(0)).threads == q.threads;
  }

  /** ... after which try_dequeue never leaves its loop, however long it runs. */
  lemma {:induction false} DequeueSpinsForever(q: Queue<int>, k: nat)
    requires Shape(1, q) && q.threads == [DequeueSeq(0)] && q.tail == 0 && q.sequences[0] == 2
    ensures var now := Exec(1, q, Alone(0, k)).queue; now == q || now == Goto(q, 0, DequeueReload(0))
  {
    if k > 0 {
      DequeueSpinsForever(q, k - 1);
      ExecAlone(1, q, 0, k);
      SpinStep(q);
    }
  }

  lemma CapacityOneStuck(a: int, b: int, k: nat)
    ensures Exec(1, EmptyRing(1), TwoEnqueues(a, b) + [(0, CallDequeue)] + Alone(0, k)).queue.threads[0] in {DequeueSeq(0), DequeueReload(0)}
  {
    var start, call: Schedule<int> := EmptyRing(1), [(0, CallDequeue)];
    SecondEnqueueSucceeds(a, b);
    var full := Exec(1, start, TwoEnqueues(a, b)).queue;
    OneStep(1, full, 0, CallDequeue);
    var called := Goto(full, 0, DequeueSeq(0));
    ExecAppend(1, start, TwoEnqueues(a, b), call);
    ExecAppend(1, start, TwoEnqueues(a, b) + call, Alone(0, k));
    DequeueSpinsForever(called, k);
  }
}
