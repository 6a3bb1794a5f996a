/** Safety of every reachable state: slot phases, exclusive access, the meaning of failure, 64-bit arithmetic. */
module QueueSafety {
  import opened Bits
  import opened QueueProtocol
  import opened QueueInvariant
  import opened QueueSolo

  datatype Phase = Free | WithProducer | Full | WithConsumer

  ghost predicate InPhase<T>(cap: Capacity, q: Queue<T>, items: seq<T>, i: nat, t: nat, phase: Phase)
    requires Shape(cap, q) && i < cap
  {
    && Slot(t, cap) == i
    && match phase
       case Free => q.head <= t < q.tail + cap && q.sequences[i] == t
       case WithProducer => q.tail <= t < q.head && q.sequences[i] == t && SoleHolder(q, t) && exists p :: 0 <= p < |q.threads| && ProducerHolds(q.threads[p], t)
       case Full => q.tail <= t < q.head <= |items| && q.sequences[i] == t + 1 && q.buffer[i] == items[t] && NoHolder(q, t)
       case WithConsumer => q.head <= t + cap && t < q.tail && q.sequences[i] == t + 1 && SoleHolder(q, t) && exists p :: 0 <= p < |q.threads| && ConsumerHolds(q.threads[p], t)
  }

  ghost predicate SoleHolder<T>(q: Queue<T>, t: nat) {
    exists p :: 0 <= p < |q.threads| && Holds(q.threads[p], t)
      && forall r :: 0 <= r < |q.threads| && Holds(q.threads[r], t) ==> r == p
  }

  ghost predicate NoHolder<T>(q: Queue<T>, t: nat) {
    forall r :: 0 <= r < |q.threads| ==> !Holds(q.threads[r], t)
  }

  /** In every reachable state the counters are within bounds and every slot is in a phase of some ticket. */
  lemma EverySlotHasPhase<T>(cap: Capacity, q: Queue<T>, s: Schedule<T>, i: nat)
    requires cap >= 2 && Initial(cap, q) && i < cap
    ensures var r := Exec(cap, q, s);
            && r.queue.tail <= r.queue.head <= r.queue.tail + cap
            && exists t: nat, phase :: InPhase(cap, r.queue, Claims(r.log), i, t, phase)
  {
    RunInv(cap, q, s);
    var r := Exec(cap, q, s);
    SlotPhase(cap, r.queue, Claims(r.log), i);
  }

  lemma SlotPhase<T>(cap: Capacity, q: Queue<T>, items: seq<T>, i: nat)
    requires cap >= 2 && Inv(cap, q, items) && i < cap
    ensures exists t: nat, phase :: InPhase(cap, q, items, i, t, phase)
  {
    var t := SlotInWindow(i, q.head - cap, cap);
    assert Slot(i, cap) == i;
    assert TicketOk(cap, q, items, t);
    if Released(cap, q, t) {
      SlotPeriod(t, cap);
      assert InPhase(cap, q, items, i, t + cap, Free);
    } else if Published(cap, q, t) {
      assert NoHolder(q, t) by {
        forall r | 0 <= r < |q.threads| ensures !Holds(q.threads[r], t) {
          assert ThreadOk(cap, q, items, q.threads[r]);
        }
      }
      assert InPhase(cap, q, items, i, t, Full);
    } else {
      var p :| 0 <= p < |q.threads| && Holds(q.threads[p], t);
      assert SoleHolder(q, t);
      assert InPhase(cap, q, items, i, t, if t >= q.tail then WithProducer else WithConsumer);
    }
  }

  /** ... and in one phase, for one ticket, only. */
  lemma PhaseUnique<T>(cap: Capacity, q: Queue<T>, items: seq<T>, i: nat, t: nat, phase: Phase, t': nat, phase': Phase)
    requires cap >= 2 && Shape(cap, q) && i < cap
    requires InPhase(cap, q, items, i, t, phase) && InPhase(cap, q, items, i, t', phase')
    ensures t == t' && phase == phase'
  {
    SlotsDistinct(t, t', cap);
  }

  // ---- Exclusive access ----

  /** The slot is claimed and not yet published or released by this thread. */
  predicate Owns<T>(cap: Capacity, pc: Pc<T>, i: nat) {
    (pc.EnqueueWrite? || pc.EnqueueStore? || pc.DequeueRead? || pc.DequeueStore?) && Index(pc.pos, cap) == i
  }

  /** While one thread owns a slot, no other thread owns it: neither reads nor writes of buffer_ overlap. */
  lemma ExclusiveSlot<T>(cap: Capacity, q: Queue<T>, s: Schedule<T>, p: nat, r: nat, i: nat)
    requires cap >= 2 && Initial(cap, q) && p < |q.threads| && r < |q.threads|
    requires Owns(cap, Exec(cap, q, s).queue.threads[p], i) && Owns(cap, Exec(cap, q, s).queue.threads[r], i)
    ensures p == r
  {
    RunInv(cap, q, s);
    var now := Exec(cap, q, s);
    var a, b := now.queue.threads[p], now.queue.threads[r];
    assert ThreadOk(cap, now.queue, Claims(now.log), a) && ThreadOk(cap, now.queue, Claims(now.log), b);
    IndexIsSlot(a.pos, cap);
    IndexIsSlot(b.pos, cap);
    SlotsDistinct(a.pos, b.pos, cap);
    assert Holds(a, a.pos) && Holds(b, a.pos);
  }

  // ---- Failure ----

  ghost predicate SomeConsumerHolds<T>(q: Queue<T>, t: int) {
    exists p :: 0 <= p < |q.threads| && ConsumerHolds(q.threads[p], t)
  }

  ghost predicate SomeProducerHolds<T>(q: Queue<T>, t: int) {
    exists p :: 0 <= p < |q.threads| && ProducerHolds(q.threads[p], t)
  }

  /** The step on which try_enqueue returns false. */
  ghost predicate EnqueueFails<T>(cap: Capacity, q: Queue<T>, p: nat)
    requires Shape(cap, q)
  {
    p < |q.threads| && q.threads[p].EnqueueSeq? && Step(cap, q, p, Run).1 == EnqueueReturned(p, q.threads[p].item, false)
  }

  ghost predicate DequeueFails<T>(cap: Capacity, q: Queue<T>, p: nat)
    requires Shape(cap, q)
  {
    p < |q.threads| && q.threads[p].DequeueSeq? && Step(cap, q, p, Run).1 == DequeueFailed(p)
  }

  /** try_enqueue gives up exactly when its position is current and the queue is full or a consumer holds the slot. */
  lemma EnqueueFailsExactly<T>(cap: Capacity, q: Queue<T>, items: seq<T>, p: nat)
    requires cap >= 2 && Inv(cap, q, items) && p < |q.threads| && q.threads[p].EnqueueSeq?
    ensures EnqueueFails(cap, q, p) <==>
              q.threads[p].pos == q.head && (q.head - q.tail == cap || SomeConsumerHolds(q, q.head - cap))
  {
    var pos := q.threads[p].pos;
    assert ThreadOk(cap, q, items, q.threads[p]);
    IndexIsSlot(pos, cap);
    SeqAtHead(cap, q, items);
    if pos < q.head {
      SeqNotBehind(cap, q, items, pos);
    } else if c :| 0 <= c < |q.threads| && ConsumerHolds(q.threads[c], q.head - cap) {
      assert ThreadOk(cap, q, items, q.threads[c]);
    }
  }

  /** try_dequeue gives up exactly when its position is current and the queue is empty or a producer holds the slot. */
  lemma DequeueFailsExactly<T>(cap: Capacity, q: Queue<T>, items: seq<T>, p: nat)
    requires cap >= 2 && Inv(cap, q, items) && p < |q.threads| && q.threads[p].DequeueSeq?
    ensures DequeueFails(cap, q, p) <==>
              q.threads[p].pos == q.tail && (q.head == q.tail || SomeProducerHolds(q, q.tail))
  {
    var pos := q.threads[p].pos;
    assert ThreadOk(cap, q, items, q.threads[p]);
    IndexIsSlot(pos, cap);
    TailSeq(cap, q, items);
    if pos < q.tail {
      SeqNotBehind(cap, q, items, pos);
    } else {
      if q.head == q.tail {
        SeqAtHead(cap, q, items);
      } else {
        assert TicketOk(cap, q, items, q.tail);
      }
      if c :| 0 <= c < |q.threads| && ProducerHolds(q.threads[c], q.tail) {
        assert ThreadOk(cap, q, items, q.threads[c]);
      }
    }
  }

  ghost predicate OthersIdle<T>(q: Queue<T>, p: nat) {
    forall r :: 0 <= r < |q.threads| && r != p ==> q.threads[r].Idle?
  }

  /** With no other operation in flight, failure means exactly full and exactly empty. */
  lemma QuietFailure<T>(cap: Capacity, q: Queue<T>, s: Schedule<T>, p: nat)
    requires cap >= 2 && Initial(cap, q) && p < |q.threads| && OthersIdle(Exec(cap, q, s).queue, p)
    ensures var now := Exec(cap, q, s).queue;
            && (now.threads[p].EnqueueSeq? ==> (EnqueueFails(cap, now, p) <==> now.threads[p].pos == now.head && now.head - now.tail == cap))
            && (now.threads[p].DequeueSeq? ==> (DequeueFails(cap, now, p) <==> now.threads[p].pos == now.tail && now.head == now.tail))
  {
    RunInv(cap, q, s);
    var now := Exec(cap, q, s);
    if now.queue.threads[p].EnqueueSeq? {
      EnqueueFailsExactly(cap, now.queue, Claims(now.log), p);
    } else if now.queue.threads[p].DequeueSeq? {
      DequeueFailsExactly(cap, now.queue, Claims(now.log), p);
    }
  }

  // ---- The signed difference in 64-bit words ----

  const TWO63: nat := 0x8000_0000_0000_0000
  const TWO64: nat := 0x1_0000_0000_0000_0000

  /** `static_cast<intptr_t>` of a size_t that holds x modulo 2^64 */
  function Signed(x: nat): int {
    var w := x % TWO64;
    if w < TWO63 then w else w - TWO64
  }

  predicate FitsSigned(x: int) {
    -(TWO63 as int) <= x < TWO63
  }

  /** Sequence numbers reach tail + Capacity, and only in the last slot of a full queue. */
  lemma SequenceBound<T>(cap: Capacity, q: Queue<T>, s: Schedule<T>, i: nat)
    requires cap >= 2 && Initial(cap, q) && i < cap
    ensures var now := Exec(cap, q, s).queue;
            && now.sequences[i] <= now.tail + cap
            && (now.sequences[i] == now.tail + cap <==>
                now.head == now.tail + cap && i == Slot(now.head - 1, cap) && Published(cap, now, now.head - 1))
  {
    RunInv(cap, q, s);
    var r := Exec(cap, q, s);
    var t := SlotInWindow(i, r.queue.head - cap, cap);
    assert Slot(i, cap) == i;
    assert TicketOk(cap, r.queue, Claims(r.log), t);
    SlotsDistinct(t, r.queue.head - 1, cap);
  }

  function Enqueues<T>(p: nat, item: T, k: nat): Schedule<T> {
    if k == 0 then [] else Enqueues(p, item, k - 1) + LoneEnqueue(p, item)
  }

  /** With room left and nobody in the queue, the slot of the next ticket is free. */
  lemma FreeAtHead<T>(cap: Capacity, q: Queue<T>, items: seq<T>)
    requires Inv(cap, q, items) && q.head < q.tail + cap && forall p :: 0 <= p < |q.threads| ==> q.threads[p].Idle?
    ensures SeqAt(cap, q, q.head) == q.head
  {
    SeqAtHead(cap, q, items);
  }

  /** After k enqueues on an empty queue. */
  ghost predicate Filled<T>(cap: Capacity, q: Queue<T>, now: Queue<T>, k: nat) {
    && Shape(cap, now) && now.head == k && now.tail == 0 && now.threads == q.threads
    && (k > 0 ==> SeqAt(cap, now, k - 1) == k)
  }

  lemma FillOne<T>(cap: Capacity, q: Queue<T>, s: Schedule<T>, p: nat, item: T, k: nat)
    requires cap >= 2 && Initial(cap, q) && p < |q.threads| && k < cap && Filled(cap, q, Exec(cap, q, s).queue, k)
    ensures Filled(cap, q, Exec(cap, q, s + LoneEnqueue(p, item)).queue, k + 1)
  {
    RunInv(cap, q, s);
    var before := Exec(cap, q, s);
    FreeAtHead(cap, before.queue, Claims(before.log));
    CallEnqueueAlone(cap, before.queue, p, item);
    ExecAppend(cap, q, s, LoneEnqueue(p, item));
  }

  /** A thread that enqueues k times alone, up to Capacity times, succeeds each time. */
  lemma {:induction false} FillUp<T>(cap: Capacity, q: Queue<T>, p: nat, item: T, k: nat)
    requires cap >= 2 && Initial(cap, q) && p < |q.threads| && k <= cap
    ensures Filled(cap, q, Exec(cap, q, Enqueues(p, item, k)).queue, k)
  {
    if k > 0 {
      FillUp(cap, q, p, item, k - 1);
      FillOne(cap, q, Enqueues(p, item, k - 1), p, item, k - 1);
    }
  }

  /** The bound is reached: after Capacity enqueues and no dequeue. */
  lemma SequenceBoundReached<T>(cap: Capacity, q: Queue<T>, p: nat, item: T)
    requires cap >= 2 && Initial(cap, q) && p < |q.threads|
    ensures var now := Exec(cap, q, Enqueues(p, item, cap)).queue; now.sequences[cap - 1] == now.tail + cap
  {
    FillUp(cap, q, p, item, cap);
    assert Slot(cap - 1, cap) == cap - 1;
  }

  /** Positions a thread may compare against: stale ones included. */
  lemma PositionBound<T>(cap: Capacity, q: Queue<T>, items: seq<T>, p: nat)
    requires Inv(cap, q, items) && p < |q.threads|
    ensures q.threads[p].EnqueueSeq? || q.threads[p].DequeueSeq? ==> q.threads[p].pos <= q.head
  {
    assert ThreadOk(cap, q, items, q.threads[p]);
  }

  /** The load of try_enqueue (offset 0) or try_dequeue (offset 1) in 64-bit words: no overflow, the true difference. */
  predicate DiffExact(v: nat, pos: nat, offset: nat) {
    var diff := Signed(v) - Signed(pos + offset);
    FitsSigned(diff) && diff == v - (pos + offset)
  }

  lemma DiffSmall(v: nat, pos: nat, offset: nat)
    requires v < TWO63 && pos + offset < TWO63
    ensures DiffExact(v, pos, offset)
  {
  }

  lemma LoadBound<T>(cap: Capacity, q: Queue<T>, s: Schedule<T>, pos: nat)
    requires cap >= 2 && Initial(cap, q)
    ensures var now := Exec(cap, q, s).queue; now.sequences[Index(pos, cap)] <= now.head + cap
  {
    RunInv(cap, q, s);
    SequenceBound(cap, q, s, Index(pos, cap));
  }

  /** While head + Capacity stays below 2^63, both signed differences are exact, also for a stale position. */
  lemma DiffIsTrueDifference<T>(cap: Capacity, q: Queue<T>, s: Schedule<T>, p: nat)
    requires cap >= 2 && Initial(cap, q) && p < |q.threads|
    requires Exec(cap, q, s).queue.head + cap < TWO63
    ensures var now := Exec(cap, q, s).queue;
            match now.threads[p]
            case EnqueueSeq(_, pos) => DiffExact(now.sequences[Index(pos, cap)], pos, 0)
            case DequeueSeq(pos) => DiffExact(now.sequences[Index(pos, cap)], pos, 1)
            case _ => true
  {
    RunInv(cap, q, s);
    var r := Exec(cap, q, s);
    var now := r.queue;
    PositionBound(cap, now, Claims(r.log), p);
    if now.threads[p].EnqueueSeq? || now.threads[p].DequeueSeq? {
      var pos := now.threads[p].pos;
      LoadBound(cap, q, s, pos);
      DiffSmall(now.sequences[Index(pos, cap)], pos, if now.threads[p].EnqueueSeq? then 0 else 1);
    }
  }
}
