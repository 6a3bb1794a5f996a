/** What every reachable state of the queue satisfies, for every number of threads and schedule. */
module QueueInvariant {
  import opened Bits
  import opened QueueProtocol

  /** The sequence number of the slot that ticket t uses. */
  ghost function SeqAt<T>(cap: Capacity, q: Queue<T>, t: int): nat
    requires Shape(cap, q)
  {
    q.sequences[Slot(t, cap)]
  }

  ghost function ItemAt<T>(cap: Capacity, q: Queue<T>, t: int): T
    requires Shape(cap, q)
  {
    q.buffer[Slot(t, cap)]
  }

  predicate ProducerHolds<T>(pc: Pc<T>, t: int) {
    (pc.EnqueueWrite? || pc.EnqueueStore?) && pc.pos == t
  }

  predicate ConsumerHolds<T>(pc: Pc<T>, t: int) {
    (pc.DequeueRead? || pc.DequeueStore?) && pc.pos == t
  }

  predicate Holds<T>(pc: Pc<T>, t: int) {
    ProducerHolds(pc, t) || ConsumerHolds(pc, t)
  }

  // The life of ticket t in its slot. Negative tickets count as released.

  ghost predicate HeldByProducer<T>(cap: Capacity, q: Queue<T>, t: int)
    requires Shape(cap, q)
  {
    q.tail <= t < q.head && SeqAt(cap, q, t) == t
  }

  ghost predicate Published<T>(cap: Capacity, q: Queue<T>, t: int)
    requires Shape(cap, q)
  {
    q.tail <= t < q.head && SeqAt(cap, q, t) == t + 1
  }

  ghost predicate HeldByConsumer<T>(cap: Capacity, q: Queue<T>, t: int)
    requires Shape(cap, q)
  {
    t < q.tail && SeqAt(cap, q, t) == t + 1
  }

  ghost predicate Released<T>(cap: Capacity, q: Queue<T>, t: int)
    requires Shape(cap, q)
  {
    t < q.tail && SeqAt(cap, q, t) == t + cap
  }

  ghost predicate Window<T>(cap: Capacity, q: Queue<T>, t: int) {
    q.head - cap <= t < q.head
  }

  /** The last Capacity claimed tickets, one per slot, are each in a phase of their life. */
  ghost predicate TicketOk<T>(cap: Capacity, q: Queue<T>, items: seq<T>, t: int)
    requires Shape(cap, q) && |items| == q.head && Window(cap, q, t)
  {
    && (HeldByProducer(cap, q, t) || Published(cap, q, t) || HeldByConsumer(cap, q, t) || Released(cap, q, t))
    && (HeldByProducer(cap, q, t) ==> exists p :: 0 <= p < |q.threads| && ProducerHolds(q.threads[p], t))
    && (HeldByConsumer(cap, q, t) ==> exists p :: 0 <= p < |q.threads| && ConsumerHolds(q.threads[p], t))
    && (Published(cap, q, t) ==> t >= 0 && ItemAt(cap, q, t) == items[t])
  }

  ghost predicate ThreadOk<T>(cap: Capacity, q: Queue<T>, items: seq<T>, pc: Pc<T>)
    requires Shape(cap, q) && |items| == q.head
  {
    match pc
    case Idle => true
    case EnqueueSeq(item, pos) => pos <= q.head
    case EnqueueCas(item, pos) => pos <= q.head && (pos == q.head ==> SeqAt(cap, q, pos) == pos)
    case EnqueueReload(item, pos) => pos < q.head
    case EnqueueWrite(item, pos) => HeldByProducer(cap, q, pos) && item == items[pos]
    case EnqueueStore(item, pos) => HeldByProducer(cap, q, pos) && item == items[pos] && ItemAt(cap, q, pos) == item
    case DequeueSeq(pos) => pos <= q.tail
    case DequeueCas(pos) => pos <= q.tail && (pos == q.tail ==> Published(cap, q, pos))
    case DequeueReload(pos) => pos < q.tail
    case DequeueRead(pos) => q.head <= pos + cap && pos < q.head && HeldByConsumer(cap, q, pos) && ItemAt(cap, q, pos) == items[pos]
    case DequeueStore(pos, item) => q.head <= pos + cap && pos < q.head && HeldByConsumer(cap, q, pos) && item == items[pos]
    case SizeTail(h) => h <= q.head && h <= q.tail + cap
  }

  ghost predicate TicketsOk<T>(cap: Capacity, q: Queue<T>, items: seq<T>)
    requires Shape(cap, q) && |items| == q.head
  {
    forall t :: Window(cap, q, t) ==> TicketOk(cap, q, items, t)
  }

  ghost predicate ThreadsOk<T>(cap: Capacity, q: Queue<T>, items: seq<T>)
    requires Shape(cap, q) && |items| == q.head
  {
    forall p :: 0 <= p < |q.threads| ==> ThreadOk(cap, q, items, q.threads[p])
  }

  ghost predicate Unshared<T>(q: Queue<T>) {
    forall p, r, t :: 0 <= p < |q.threads| && 0 <= r < |q.threads| && Holds(q.threads[p], t) && Holds(q.threads[r], t) ==> p == r
  }

  /** The invariant; items[t] is the item of ticket t. */
  ghost predicate Inv<T>(cap: Capacity, q: Queue<T>, items: seq<T>) {
    && Shape(cap, q)
    && q.tail <= q.head <= q.tail + cap
    && |items| == q.head
    && TicketsOk(cap, q, items)
    && ThreadsOk(cap, q, items)
    && Unshared(q)
  }

  lemma InitialInv<T>(cap: Capacity, q: Queue<T>)
    requires cap >= 2 && Initial(cap, q)
    ensures Inv(cap, q, [])
  {
    forall t | Window(cap, q, t) ensures TicketOk(cap, q, [], t) {
      SlotPeriod(t, cap);
      assert Slot(t + cap, cap) == t + cap;
    }
  }

  // ---- Facts about the current window ----

  /** A slot's sequence number is never behind a claimed ticket that uses it. */
  lemma SeqNotBehind<T>(cap: Capacity, q: Queue<T>, items: seq<T>, pos: nat)
    requires Inv(cap, q, items) && pos < q.head
    ensures SeqAt(cap, q, pos) >= pos
    ensures pos < q.tail ==> SeqAt(cap, q, pos) >= pos + 1
  {
    var w := SlotInWindow(pos, q.head - cap, cap);
    assert TicketOk(cap, q, items, w);
    if pos >= q.head - cap {
      SlotsDistinct(pos, w, cap);
    }
  }

  /** The slot of the next ticket: what its sequence number tells. */
  lemma SeqAtHead<T>(cap: Capacity, q: Queue<T>, items: seq<T>)
    requires Inv(cap, q, items)
    ensures SeqAt(cap, q, q.head) == SeqAt(cap, q, q.head - cap)
    ensures TicketOk(cap, q, items, q.head - cap)
    ensures SeqAt(cap, q, q.head) <= q.head
  {
    SlotPeriod(q.head - cap, cap);
    assert Window(cap, q, q.head - cap);
  }

  // ---- One lemma per kind of step ----

  ghost predicate SameHold<T>(a: Pc<T>, b: Pc<T>) {
    forall t :: (ProducerHolds(a, t) <==> ProducerHolds(b, t)) && (ConsumerHolds(a, t) <==> ConsumerHolds(b, t))
  }

  lemma LocalInv<T>(cap: Capacity, q: Queue<T>, items: seq<T>, p: nat, pc: Pc<T>)
    requires Inv(cap, q, items) && p < |q.threads|
    requires SameHold(q.threads[p], pc) && ThreadOk(cap, q, items, pc)
    ensures Inv(cap, Goto(q, p, pc), items)
  {
    var q' := Goto(q, p, pc);
    forall t | Window(cap, q', t) ensures TicketOk(cap, q', items, t) {
      assert TicketOk(cap, q, items, t);
      if r :| 0 <= r < |q.threads| && Holds(q.threads[r], t) {
        assert Holds(q'.threads[r], t);
      }
    }
  }

  lemma WitnessElsewhere<T>(q: Queue<T>, q': Queue<T>, p: nat, t: int)
    requires p < |q.threads| == |q'.threads|
    requires forall r :: 0 <= r < |q.threads| && r != p ==> q'.threads[r] == q.threads[r]
    requires !Holds(q.threads[p], t)
    ensures (exists r :: 0 <= r < |q.threads| && ProducerHolds(q.threads[r], t)) ==> exists r :: 0 <= r < |q'.threads| && ProducerHolds(q'.threads[r], t)
    ensures (exists r :: 0 <= r < |q.threads| && ConsumerHolds(q.threads[r], t)) ==> exists r :: 0 <= r < |q'.threads| && ConsumerHolds(q'.threads[r], t)
  {
    if r :| 0 <= r < |q.threads| && ProducerHolds(q.threads[r], t) {
      assert ProducerHolds(q'.threads[r], t);
    }
    if r :| 0 <= r < |q.threads| && ConsumerHolds(q.threads[r], t) {
      assert ConsumerHolds(q'.threads[r], t);
    }
  }

  /** A successful compare-exchange on head_ claims the next ticket; its slot is still free. */
  lemma ClaimInv<T>(cap: Capacity, q: Queue<T>, items: seq<T>, p: nat, item: T)
    requires cap >= 2 && Inv(cap, q, items) && p < |q.threads|
    requires q.threads[p] == EnqueueCas(item, q.head)
    ensures Inv(cap, Goto(q, p, EnqueueWrite(item, q.head)).(head := q.head + 1), items + [item])
  {
    var q', items' := Goto(q, p, EnqueueWrite(item, q.head)).(head := q.head + 1), items + [item];
    assert ThreadOk(cap, q, items, q.threads[p]);
    SeqAtHead(cap, q, items);
    assert Released(cap, q, q.head - cap);
    forall t | Window(cap, q', t) ensures TicketOk(cap, q', items', t) {
      if t == q.head {
        assert ProducerHolds(q'.threads[p], t);
      } else {
        assert TicketOk(cap, q, items, t);
        WitnessElsewhere(q, q', p, t);
      }
    }
    forall r | 0 <= r < |q'.threads| ensures ThreadOk(cap, q', items', q'.threads[r]) {
      assert ThreadOk(cap, q, items, q.threads[r]);
    }
  }

  lemma WriteInv<T>(cap: Capacity, q: Queue<T>, items: seq<T>, p: nat, item: T, pos: nat)
    requires Inv(cap, q, items) && p < |q.threads|
    requires q.threads[p] == EnqueueWrite(item, pos)
    ensures Inv(cap, Goto(q, p, EnqueueStore(item, pos)).(buffer := q.buffer[Slot(pos, cap) := item]), items)
  {
    var q' := Goto(q, p, EnqueueStore(item, pos)).(buffer := q.buffer[Slot(pos, cap) := item]);
    assert ThreadOk(cap, q, items, q.threads[p]);
    OtherSlots(cap, pos);
    forall t | Window(cap, q', t) ensures TicketOk(cap, q', items, t) {
      assert TicketOk(cap, q, items, t);
      if t == pos {
        assert ProducerHolds(q'.threads[p], t);
      } else {
        WitnessElsewhere(q, q', p, t);
      }
    }
    forall r | 0 <= r < |q'.threads| ensures ThreadOk(cap, q', items, q'.threads[r]) {
      assert ThreadOk(cap, q, items, q.threads[r]);
      OthersHoldOthers(q, p, r, pos);
    }
  }

  lemma OthersHoldOthers<T>(q: Queue<T>, p: nat, r: nat, pos: int)
    requires Unshared(q) && p < |q.threads| && r < |q.threads| && Holds(q.threads[p], pos)
    ensures r != p ==> !Holds(q.threads[r], pos)
  {
  }

  /** Storing a new sequence number into the slot of ticket pos, and nothing else but thread states. */
  ghost predicate StoredAt<T>(cap: Capacity, q: Queue<T>, q': Queue<T>, pos: int)
    requires Shape(cap, q)
  {
    && Shape(cap, q') && q' == q.(sequences := q'.sequences, threads := q'.threads)
    && forall i :: 0 <= i < cap && i != Slot(pos, cap) ==> q'.sequences[i] == q.sequences[i]
  }

  lemma StoreKeepsTicket<T>(cap: Capacity, q: Queue<T>, q': Queue<T>, pos: int, t: int)
    requires Shape(cap, q) && StoredAt(cap, q, q', pos) && t != pos && t < pos + cap && pos < t + cap
    ensures SeqAt(cap, q', t) == SeqAt(cap, q, t)
  {
    SlotsDistinct(t, pos, cap);
  }

  /** It does not disturb the other threads. */
  lemma StoreKeepsThread<T>(cap: Capacity, q: Queue<T>, items: seq<T>, q': Queue<T>, pos: nat, pc: Pc<T>)
    requires cap >= 2 && Inv(cap, q, items) && Window(cap, q, pos)
    requires HeldByProducer(cap, q, pos) || HeldByConsumer(cap, q, pos)
    requires StoredAt(cap, q, q', pos)
    requires ThreadOk(cap, q, items, pc) && !Holds(pc, pos)
    ensures ThreadOk(cap, q', items, pc) || (pc.DequeueCas? && pc.pos == pos)
  {
    match pc
    case EnqueueCas(_, _) => HeadSlotUntouched(cap, q, items, pos);
    case EnqueueWrite(_, t) => StoreKeepsTicket(cap, q, q', pos, t);
    case EnqueueStore(_, t) => StoreKeepsTicket(cap, q, q', pos, t);
    case DequeueCas(t) =>
      if t == q.tail && t != pos {
        StoreKeepsTicket(cap, q, q', pos, t);
      }
    case DequeueRead(t) => StoreKeepsTicket(cap, q, q', pos, t);
    case DequeueStore(t, _) => StoreKeepsTicket(cap, q, q', pos, t);
    case _ =>
  }

  lemma PublishInv<T>(cap: Capacity, q: Queue<T>, items: seq<T>, p: nat, item: T, pos: nat)
    requires cap >= 2 && Inv(cap, q, items) && p < |q.threads|
    requires q.threads[p] == EnqueueStore(item, pos)
    ensures Inv(cap, Goto(q, p, Idle).(sequences := q.sequences[Slot(pos, cap) := pos + 1]), items)
  {
    var q' := Goto(q, p, Idle).(sequences := q.sequences[Slot(pos, cap) := pos + 1]);
    assert ThreadOk(cap, q, items, q.threads[p]);
    forall t | Window(cap, q', t) ensures TicketOk(cap, q', items, t) {
      assert TicketOk(cap, q, items, t);
      SlotsDistinct(t, pos, cap);
      if t != pos {
        WitnessElsewhere(q, q', p, t);
      }
    }
    forall r | 0 <= r < |q'.threads| ensures ThreadOk(cap, q', items, q'.threads[r]) {
      if r != p {
        assert ThreadOk(cap, q, items, q.threads[r]);
        OthersHoldOthers(q, p, r, pos);
        StoreKeepsThread(cap, q, items, q', pos, q.threads[r]);
      }
    }
  }

  /** A held slot is not the one the next producer waits for, unless that producer waits in vain. */
  lemma HeadSlotUntouched<T>(cap: Capacity, q: Queue<T>, items: seq<T>, pos: int)
    requires cap >= 2 && Inv(cap, q, items) && Window(cap, q, pos)
    requires HeldByProducer(cap, q, pos) || HeldByConsumer(cap, q, pos)
    ensures SeqAt(cap, q, q.head) == q.head ==> Slot(q.head, cap) != Slot(pos, cap)
  {
    SeqAtHead(cap, q, items);
    SlotsDistinct(q.head, pos + cap, cap);
    SlotPeriod(pos, cap);
  }

  lemma TakeInv<T>(cap: Capacity, q: Queue<T>, items: seq<T>, p: nat)
    requires cap >= 2 && Inv(cap, q, items) && p < |q.threads|
    requires q.threads[p] == DequeueCas(q.tail)
    ensures Inv(cap, Goto(q, p, DequeueRead(q.tail)).(tail := q.tail + 1), items)
  {
    var q' := Goto(q, p, DequeueRead(q.tail)).(tail := q.tail + 1);
    assert ThreadOk(cap, q, items, q.threads[p]);
    assert TicketOk(cap, q, items, q.tail);
    forall t | Window(cap, q', t) ensures TicketOk(cap, q', items, t) {
      assert TicketOk(cap, q, items, t);
      if t == q.tail {
        assert ConsumerHolds(q'.threads[p], t);
      } else {
        WitnessElsewhere(q, q', p, t);
      }
    }
    forall r | 0 <= r < |q'.threads| ensures ThreadOk(cap, q', items, q'.threads[r]) {
      assert ThreadOk(cap, q, items, q.threads[r]);
    }
  }

  lemma ReleaseInv<T>(cap: Capacity, q: Queue<T>, items: seq<T>, p: nat, pos: nat, item: T)
    requires cap >= 2 && Inv(cap, q, items) && p < |q.threads|
    requires q.threads[p] == DequeueStore(pos, item)
    ensures Inv(cap, Goto(q, p, Idle).(sequences := q.sequences[Slot(pos, cap) := pos + cap]), items)
  {
    var q' := Goto(q, p, Idle).(sequences := q.sequences[Slot(pos, cap) := pos + cap]);
    assert ThreadOk(cap, q, items, q.threads[p]);
    forall t | Window(cap, q', t) ensures TicketOk(cap, q', items, t) {
      assert TicketOk(cap, q, items, t);
      SlotsDistinct(t, pos, cap);
      if t != pos {
        WitnessElsewhere(q, q', p, t);
      }
    }
    forall r | 0 <= r < |q'.threads| ensures ThreadOk(cap, q', items, q'.threads[r]) {
      if r != p {
        assert ThreadOk(cap, q, items, q.threads[r]);
        OthersHoldOthers(q, p, r, pos);
        StoreKeepsThread(cap, q, items, q', pos, q.threads[r]);
      }
    }
  }

  // ---- Every step, every run ----

  ghost function NewClaim<T>(e: Event<T>): seq<T> {
    if e.Claimed? then [e.item] else []
  }

  lemma EnqueueSeqInv<T>(cap: Capacity, q: Queue<T>, items: seq<T>, p: nat, spurious: bool)
    requires cap >= 2 && Inv(cap, q, items) && p < |q.threads| && q.threads[p].EnqueueSeq?
    ensures Inv(cap, EnqueueStep(cap, q, p, spurious).0, items)
  {
    assert ThreadOk(cap, q, items, q.threads[p]);
    IndexIsSlot(q.threads[p].pos, cap);
    SeqAtHead(cap, q, items);
    LocalInv(cap, q, items, p, EnqueueStep(cap, q, p, spurious).0.threads[p]);
  }

  lemma EnqueueCasInv<T>(cap: Capacity, q: Queue<T>, items: seq<T>, p: nat, spurious: bool)
    requires cap >= 2 && Inv(cap, q, items) && p < |q.threads| && q.threads[p].EnqueueCas?
    ensures var (q', e) := EnqueueStep(cap, q, p, spurious); Inv(cap, q', items + NewClaim(e))
  {
    var item := q.threads[p].item;
    if q.head == q.threads[p].pos && !spurious {
      ClaimInv(cap, q, items, p, item);
    } else {
      assert items + [] == items;
      LocalInv(cap, q, items, p, EnqueueSeq(item, q.head));
    }
  }

  lemma EnqueueOtherInv<T>(cap: Capacity, q: Queue<T>, items: seq<T>, p: nat, spurious: bool)
    requires cap >= 2 && Inv(cap, q, items) && p < |q.threads| && InEnqueue(q.threads[p]) && !q.threads[p].EnqueueCas?
    ensures Inv(cap, EnqueueStep(cap, q, p, spurious).0, items)
    ensures !EnqueueStep(cap, q, p, spurious).1.Claimed?
  {
    match q.threads[p]
    case EnqueueSeq(item, pos) => EnqueueSeqInv(cap, q, items, p, spurious);
    case EnqueueReload(item, pos) => LocalInv(cap, q, items, p, EnqueueSeq(item, q.head));
    case EnqueueWrite(item, pos) =>
      IndexIsSlot(pos, cap);
      WriteInv(cap, q, items, p, item, pos);
    case EnqueueStore(item, pos) =>
      IndexIsSlot(pos, cap);
      PublishInv(cap, q, items, p, item, pos);
  }

  lemma EnqueueStepInv<T>(cap: Capacity, q: Queue<T>, items: seq<T>, p: nat, spurious: bool)
    requires cap >= 2 && Inv(cap, q, items) && p < |q.threads| && InEnqueue(q.threads[p])
    ensures var (q', e) := EnqueueStep(cap, q, p, spurious); Inv(cap, q', items + NewClaim(e))
  {
    if q.threads[p].EnqueueCas? {
      EnqueueCasInv(cap, q, items, p, spurious);
    } else {
      EnqueueOtherInv(cap, q, items, p, spurious);
      assert items + [] == items;
    }
  }

  lemma DequeueSeqInv<T>(cap: Capacity, q: Queue<T>, items: seq<T>, p: nat, spurious: bool)
    requires cap >= 2 && Inv(cap, q, items) && p < |q.threads| && q.threads[p].DequeueSeq?
    ensures Inv(cap, DequeueStep(cap, q, p, spurious).0, items)
  {
    assert ThreadOk(cap, q, items, q.threads[p]);
    IndexIsSlot(q.threads[p].pos, cap);
    TailSeq(cap, q, items);
    LocalInv(cap, q, items, p, DequeueStep(cap, q, p, spurious).0.threads[p]);
  }

  lemma ReadInv<T>(cap: Capacity, q: Queue<T>, items: seq<T>, p: nat, pos: nat)
    requires Inv(cap, q, items) && p < |q.threads| && q.threads[p] == DequeueRead(pos)
    ensures Inv(cap, Goto(q, p, DequeueStore(pos, ItemAt(cap, q, pos))), items)
  {
    assert ThreadOk(cap, q, items, q.threads[p]);
    LocalInv(cap, q, items, p, DequeueStore(pos, ItemAt(cap, q, pos)));
  }

  lemma DequeueCasInv<T>(cap: Capacity, q: Queue<T>, items: seq<T>, p: nat, spurious: bool)
    requires cap >= 2 && Inv(cap, q, items) && p < |q.threads| && q.threads[p].DequeueCas?
    ensures Inv(cap, DequeueStep(cap, q, p, spurious).0, items)
  {
    if q.tail == q.threads[p].pos && !spurious {
      TakeInv(cap, q, items, p);
    } else {
      LocalInv(cap, q, items, p, DequeueSeq(q.tail));
    }
  }

  lemma DequeueStepInv<T>(cap: Capacity, q: Queue<T>, items: seq<T>, p: nat, spurious: bool)
    requires cap >= 2 && Inv(cap, q, items) && p < |q.threads| && InDequeue(q.threads[p])
    ensures Inv(cap, DequeueStep(cap, q, p, spurious).0, items)
    ensures !DequeueStep(cap, q, p, spurious).1.Claimed?
  {
    match q.threads[p]
    case DequeueSeq(pos) => DequeueSeqInv(cap, q, items, p, spurious);
    case DequeueCas(pos) => DequeueCasInv(cap, q, items, p, spurious);
    case DequeueReload(pos) => LocalInv(cap, q, items, p, DequeueSeq(q.tail));
    case DequeueRead(pos) =>
      IndexIsSlot(pos, cap);
      ReadInv(cap, q, items, p, pos);
    case DequeueStore(pos, item) =>
      IndexIsSlot(pos, cap);
      ReleaseInv(cap, q, items, p, pos, item);
  }

  /** The slot of the oldest ticket: what its sequence number tells. */
  lemma TailSeq<T>(cap: Capacity, q: Queue<T>, items: seq<T>)
    requires cap >= 2 && Inv(cap, q, items)
    ensures SeqAt(cap, q, q.tail) <= q.tail + 1
    ensures SeqAt(cap, q, q.tail) == q.tail + 1 ==> Published(cap, q, q.tail)
    ensures SeqAt(cap, q, q.tail) <= q.tail ==> q.tail == q.head || HeldByProducer(cap, q, q.tail)
  {
    if q.tail == q.head {
      SeqAtHead(cap, q, items);
    } else {
      assert TicketOk(cap, q, items, q.tail);
    }
  }

  lemma StepInv<T>(cap: Capacity, q: Queue<T>, items: seq<T>, p: nat, a: Action<T>)
    requires cap >= 2 && Inv(cap, q, items)
    ensures var (q', e) := Step(cap, q, p, a); Inv(cap, q', items + NewClaim(e))
  {
    assert items + [] == items;
    if p < |q.threads| {
      var pc := q.threads[p];
      if InEnqueue(pc) {
        EnqueueStepInv(cap, q, items, p, a.SpuriousFailure?);
      } else if InDequeue(pc) {
        DequeueStepInv(cap, q, items, p, a.SpuriousFailure?);
      } else if Step(cap, q, p, a).0 != q {
        LocalInv(cap, q, items, p, Step(cap, q, p, a).0.threads[p]);
      }
    }
  }

  /** A run from any state that satisfies the invariant keeps it. */
  lemma {:induction false} RunInvFrom<T>(cap: Capacity, q: Queue<T>, items: seq<T>, s: Schedule<T>)
    requires cap >= 2 && Inv(cap, q, items)
    ensures var r := Exec(cap, q, s); Inv(cap, r.queue, items + Claims(r.log))
  {
    if s == [] {
      assert items + [] == items;
    } else {
      RunInvFrom(cap, q, items, s[..|s| - 1]);
      var before := Exec(cap, q, s[..|s| - 1]);
      var (p, a) := s[|s| - 1];
      StepInv(cap, before.queue, items + Claims(before.log), p, a);
      var e := Step(cap, before.queue, p, a).1;
      assert (before.log + [e])[..|before.log + [e]| - 1] == before.log;
      assert items + (Claims(before.log) + NewClaim(e)) == (items + Claims(before.log)) + NewClaim(e);
    }
  }

  /** Every run from the constructor's state keeps the invariant. */
  lemma RunInv<T>(cap: Capacity, q: Queue<T>, s: Schedule<T>)
    requires cap >= 2 && Initial(cap, q)
    ensures var r := Exec(cap, q, s); Inv(cap, r.queue, Claims(r.log))
  {
    InitialInv(cap, q);
    RunInvFrom(cap, q, [], s);
    assert [] + Claims(Exec(cap, q, s).log) == Claims(Exec(cap, q, s).log);
  }
}
