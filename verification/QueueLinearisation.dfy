/**
 The queue linearises at its two compare-exchanges: the event log of every run is accepted by an
 atomic bounded FIFO in which Claimed appends, Taken removes the oldest, and a call returns what its
 own Claimed or Taken did.
 */
module QueueLinearisation {
  import opened Options
  import opened Bits
  import opened QueueProtocol
  import opened QueueInvariant
  import opened QueueSafety

  /** What an atomic FIFO knows of a thread: which call it is in, and what the call has already done. */
  datatype Status<T> = Ready | Enqueuing(item: T) | Enqueued(item: T) | Dequeuing | Dequeued(item: T) | Sizing

  datatype Fifo<T> = Fifo(content: seq<T>, status: seq<Status<T>>)

  ghost function Become<T>(f: Fifo<T>, p: nat, before: Status<T>, after: Status<T>, content: seq<T>): Option<Fifo<T>> {
    if p < |f.status| && f.status[p] == before then Some(Fifo(content, f.status[p := after])) else None
  }

  ghost predicate SomeDequeued<T>(f: Fifo<T>) {
    exists r :: 0 <= r < |f.status| && f.status[r].Dequeued?
  }

  ghost predicate SomeEnqueued<T>(f: Fifo<T>) {
    exists r :: 0 <= r < |f.status| && f.status[r].Enqueued?
  }

  /**
   The atomic FIFO. A failing enqueue needs a full queue or a removal that has not returned yet;
   a failing dequeue needs an empty queue or an append that has not returned yet.
   */
  ghost function Accept<T>(cap: nat, f: Fifo<T>, e: Event<T>): Option<Fifo<T>> {
    match e
    case Silent => Some(f)
    case EnqueueCalled(p, item) => Become(f, p, Ready, Enqueuing(item), f.content)
    case Claimed(p, item) =>
      if |f.content| < cap then Become(f, p, Enqueuing(item), Enqueued(item), f.content + [item]) else None
    case EnqueueReturned(p, item, ok) =>
      if ok then Become(f, p, Enqueued(item), Ready, f.content)
      else if |f.content| == cap || SomeDequeued(f) then Become(f, p, Enqueuing(item), Ready, f.content)
      else None
    case DequeueCalled(p) => Become(f, p, Ready, Dequeuing, f.content)
    case Taken(p) =>
      if f.content != [] then Become(f, p, Dequeuing, Dequeued(f.content[0]), f.content[1..]) else None
    case DequeueReturned(p, _, item) => Become(f, p, Dequeued(item), Ready, f.content)
    case DequeueFailed(p) =>
      if f.content == [] || SomeEnqueued(f) then Become(f, p, Dequeuing, Ready, f.content) else None
    case Retried(p) => if p < |f.status| && (f.status[p].Enqueuing? || f.status[p].Dequeuing?) then Some(f) else None
    case Spurious(p) => if p < |f.status| && (f.status[p].Enqueuing? || f.status[p].Dequeuing?) then Some(f) else None
    case SizeCalled(p) => Become(f, p, Ready, Sizing, f.content)
    case SizeReturned(p, _, _) => Become(f, p, Sizing, Ready, f.content)
  }

  ghost function Replay<T>(cap: nat, f: Fifo<T>, log: seq<Event<T>>): Option<Fifo<T>> {
    if log == [] then Some(f)
    else match Replay(cap, f, log[..|log| - 1])
      case None => None
      case Some(before) => Accept(cap, before, log[|log| - 1])
  }

  ghost function NewFifo<T>(n: nat): Fifo<T> {
    Fifo([], seq(n, i => Ready))
  }

  ghost function StatusOf<T>(pc: Pc<T>, items: seq<T>): Status<T> {
    match pc
    case Idle => Ready
    case EnqueueSeq(item, _) => Enqueuing(item)
    case EnqueueCas(item, _) => Enqueuing(item)
    case EnqueueReload(item, _) => Enqueuing(item)
    case EnqueueWrite(item, _) => Enqueued(item)
    case EnqueueStore(item, _) => Enqueued(item)
    case DequeueSeq(_) => Dequeuing
    case DequeueCas(_) => Dequeuing
    case DequeueReload(_) => Dequeuing
    case DequeueRead(pos) => if pos < |items| then Dequeued(items[pos]) else Dequeuing
    case DequeueStore(_, item) => Dequeued(item)
    case SizeTail(_) => Sizing
  }

  ghost function Abstract<T>(q: Queue<T>, items: seq<T>): Fifo<T>
    requires q.tail <= |items|
  {
    Fifo(items[q.tail..], seq(|q.threads|, i requires 0 <= i < |q.threads| => StatusOf(q.threads[i], items)))
  }

  /** Only the stepping thread's status can change. */
  lemma AbstractGoto<T>(q: Queue<T>, items: seq<T>, q': Queue<T>, items': seq<T>, p: nat, pc: Pc<T>)
    requires q.tail <= |items| && q'.tail <= |items'| && items <= items' && p < |q.threads|
    requires q'.threads == q.threads[p := pc]
    requires forall r :: 0 <= r < |q.threads| && q.threads[r].DequeueRead? ==> q.threads[r].pos < |items|
    ensures Abstract(q', items') == Fifo(items'[q'.tail..], Abstract(q, items).status[p := StatusOf(pc, items')])
  {
    assert forall r :: 0 <= r < |q.threads| && r != p ==> StatusOf(q'.threads[r], items') == StatusOf(q.threads[r], items);
    assert Abstract(q', items').status == Abstract(q, items).status[p := StatusOf(pc, items')];
  }

  ghost predicate Accepted<T>(cap: Capacity, q: Queue<T>, items: seq<T>, q': Queue<T>, e: Event<T>) {
    && q.tail <= |items|
    && q'.tail <= |items + NewClaim(e)|
    && Accept(cap, Abstract(q, items), e) == Some(Abstract(q', items + NewClaim(e)))
  }

  lemma AbstractStep<T>(cap: Capacity, q: Queue<T>, items: seq<T>, q': Queue<T>, items': seq<T>, p: nat, pc: Pc<T>)
    requires Inv(cap, q, items) && items <= items' && q'.tail <= |items'| && p < |q.threads|
    requires q'.threads == q.threads[p := pc]
    ensures Abstract(q', items') == Fifo(items'[q'.tail..], Abstract(q, items).status[p := StatusOf(pc, items')])
    ensures Abstract(q, items).status[p] == StatusOf(q.threads[p], items)
  {
    forall r | 0 <= r < |q.threads| && q.threads[r].DequeueRead? ensures q.threads[r].pos < |items| {
      assert ThreadOk(cap, q, items, q.threads[r]);
    }
    AbstractGoto(q, items, q', items', p, pc);
  }

  lemma EnqueueStepAccepted<T>(cap: Capacity, q: Queue<T>, items: seq<T>, p: nat, spurious: bool)
    requires cap >= 2 && Inv(cap, q, items) && p < |q.threads| && InEnqueue(q.threads[p])
    ensures var (q', e) := EnqueueStep(cap, q, p, spurious); Accepted(cap, q, items, q', e)
  {
    var (q', e) := EnqueueStep(cap, q, p, spurious);
    EnqueueStepInv(cap, q, items, p, spurious);
    var f, items' := Abstract(q, items), items + NewClaim(e);
    AbstractStep(cap, q, items, q', items', p, q'.threads[p]);
    assert f.status[p := f.status[p]] == f.status;
    assert items'[q'.tail..] == f.content + NewClaim(e);
    assert f.content + [] == f.content;
    if e.EnqueueReturned? && !e.ok {
      FullOrRemoving(cap, q, items, p);
    }
  }

  /** A step that is neither a claim nor a failure. */
  lemma QuietDequeueAccepted<T>(cap: Capacity, q: Queue<T>, items: seq<T>, p: nat, spurious: bool)
    requires cap >= 2 && Inv(cap, q, items) && p < |q.threads| && InDequeue(q.threads[p])
    requires var e := DequeueStep(cap, q, p, spurious).1; !e.Taken? && !e.DequeueFailed?
    ensures var (q', e) := DequeueStep(cap, q, p, spurious); Accepted(cap, q, items, q', e)
  {
    var (q', e) := DequeueStep(cap, q, p, spurious);
    assert ThreadOk(cap, q, items, q.threads[p]);
    IndexIsSlot(q.threads[p].pos, cap);
    var f := Abstract(q, items);
    assert items + NewClaim(e) == items;
    AbstractStep(cap, q, items, q', items, p, q'.threads[p]);
    assert f.status[p := f.status[p]] == f.status;
  }

  lemma TakeAccepted<T>(cap: Capacity, q: Queue<T>, items: seq<T>, p: nat)
    requires cap >= 2 && Inv(cap, q, items) && p < |q.threads| && q.threads[p] == DequeueCas(q.tail)
    ensures var (q', e) := DequeueStep(cap, q, p, false); Accepted(cap, q, items, q', e)
  {
    var (q', e) := DequeueStep(cap, q, p, false);
    TakeInv(cap, q, items, p);
    assert ThreadOk(cap, q, items, q.threads[p]);
    assert items + NewClaim(e) == items;
    AbstractStep(cap, q, items, q', items, p, q'.threads[p]);
    assert items[q'.tail..] == Abstract(q, items).content[1..];
  }

  lemma FailureAccepted<T>(cap: Capacity, q: Queue<T>, items: seq<T>, p: nat, spurious: bool)
    requires cap >= 2 && Inv(cap, q, items) && p < |q.threads| && q.threads[p].DequeueSeq?
    requires DequeueStep(cap, q, p, spurious).1.DequeueFailed?
    ensures var (q', e) := DequeueStep(cap, q, p, spurious); Accepted(cap, q, items, q', e)
  {
    var (q', e) := DequeueStep(cap, q, p, spurious);
    assert items + NewClaim(e) == items;
    AbstractStep(cap, q, items, q', items, p, q'.threads[p]);
    EmptyOrAppending(cap, q, items, p);
  }

  lemma DequeueStepAccepted<T>(cap: Capacity, q: Queue<T>, items: seq<T>, p: nat, spurious: bool)
    requires cap >= 2 && Inv(cap, q, items) && p < |q.threads| && InDequeue(q.threads[p])
    ensures var (q', e) := DequeueStep(cap, q, p, spurious); Accepted(cap, q, items, q', e)
  {
    var e := DequeueStep(cap, q, p, spurious).1;
    if e.Taken? {
      TakeAccepted(cap, q, items, p);
    } else if e.DequeueFailed? {
      FailureAccepted(cap, q, items, p, spurious);
    } else {
      QuietDequeueAccepted(cap, q, items, p, spurious);
    }
  }

  lemma StepAccepted<T>(cap: Capacity, q: Queue<T>, items: seq<T>, p: nat, a: Action<T>)
    requires cap >= 2 && Inv(cap, q, items)
    ensures var (q', e) := Step(cap, q, p, a); Accepted(cap, q, items, q', e)
  {
    var (q', e) := Step(cap, q, p, a);
    assert items + [] == items;
    if p < |q.threads| {
      if InEnqueue(q.threads[p]) {
        EnqueueStepAccepted(cap, q, items, p, a.SpuriousFailure?);
      } else if InDequeue(q.threads[p]) {
        DequeueStepAccepted(cap, q, items, p, a.SpuriousFailure?);
      } else if q' != q {
        AbstractStep(cap, q, items, q', items, p, q'.threads[p]);
      }
    }
  }

  lemma FullOrRemoving<T>(cap: Capacity, q: Queue<T>, items: seq<T>, p: nat)
    requires cap >= 2 && Inv(cap, q, items) && EnqueueFails(cap, q, p)
    ensures |Abstract(q, items).content| == cap || SomeDequeued(Abstract(q, items))
  {
    EnqueueFailsExactly(cap, q, items, p);
    if c :| 0 <= c < |q.threads| && ConsumerHolds(q.threads[c], q.head - cap) {
      assert ThreadOk(cap, q, items, q.threads[c]);
      assert Abstract(q, items).status[c].Dequeued?;
    }
  }

  lemma EmptyOrAppending<T>(cap: Capacity, q: Queue<T>, items: seq<T>, p: nat)
    requires cap >= 2 && Inv(cap, q, items) && DequeueFails(cap, q, p)
    ensures Abstract(q, items).content == [] || SomeEnqueued(Abstract(q, items))
  {
    DequeueFailsExactly(cap, q, items, p);
    if c :| 0 <= c < |q.threads| && ProducerHolds(q.threads[c], q.tail) {
      assert Abstract(q, items).status[c].Enqueued?;
    }
  }

  /** Every run is a run of the atomic FIFO, whose content is the claimed and not yet taken items. */
  lemma {:induction false} Linearises<T>(cap: Capacity, q: Queue<T>, s: Schedule<T>)
    requires cap >= 2 && Initial(cap, q)
    ensures var r := Exec(cap, q, s);
            && r.queue.tail <= |Claims(r.log)|
            && Replay(cap, NewFifo(|q.threads|), r.log) == Some(Abstract(r.queue, Claims(r.log)))
  {
    var r := Exec(cap, q, s);
    if s == [] {
      assert Abstract(q, []).status == NewFifo<T>(|q.threads|).status;
    } else {
      Linearises(cap, q, s[..|s| - 1]);
      RunInv(cap, q, s[..|s| - 1]);
      var before := Exec(cap, q, s[..|s| - 1]);
      StepAccepted(cap, before.queue, Claims(before.log), s[|s| - 1].0, s[|s| - 1].1);
      assert r.log[..|r.log| - 1] == before.log;
    }
  }
}
