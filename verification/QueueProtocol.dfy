/**
 The bounded multi-producer multi-consumer queue as a step machine. Any number of threads
 interleave; one step is one access to shared memory (a load, a compare-exchange, a buffer access
 or a sequence store) together with the thread-local work that follows it. Counters are unbounded.
 */
module QueueProtocol {
  import opened Bits

  /** Where a thread is, with its local variables. The name says which access comes next. */
  datatype Pc<T> =
    | Idle
    | EnqueueSeq(item: T, pos: nat)     // load sequences_[index]
    | EnqueueCas(item: T, pos: nat)     // diff == 0: compare-exchange head_
    | EnqueueReload(item: T, pos: nat)  // diff > 0: load head_ again
    | EnqueueWrite(item: T, pos: nat)   // ticket pos claimed: write buffer_[index]
    | EnqueueStore(item: T, pos: nat)   // item written: store sequences_[index]
    | DequeueSeq(pos: nat)
    | DequeueCas(pos: nat)
    | DequeueReload(pos: nat)
    | DequeueRead(pos: nat)
    | DequeueStore(pos: nat, item: T)
    | SizeTail(loadedHead: nat)         // size(): head_ loaded, tail_ comes next

  datatype Queue<T> = Queue(head: nat, tail: nat, buffer: seq<T>, sequences: seq<nat>, threads: seq<Pc<T>>)

  /** A scheduler's choice for one thread. A choice the thread cannot take leaves the state alone. */
  datatype Action<T> =
    | CallEnqueue(item: T)
    | CallDequeue
    | CallSize
    | Run
    | SpuriousFailure  // compare_exchange_weak fails although the value matches

  datatype Event<T> =
    | Silent
    | EnqueueCalled(p: nat, item: T)
    | Claimed(p: nat, item: T)            // successful compare-exchange on head_
    | EnqueueReturned(p: nat, item: T, ok: bool)
    | DequeueCalled(p: nat)
    | Taken(p: nat)                       // successful compare-exchange on tail_
    | DequeueReturned(p: nat, ticket: nat, item: T)
    | DequeueFailed(p: nat)
    | Retried(p: nat)                     // back to the top of the loop with a new position
    | Spurious(p: nat)
    | SizeCalled(p: nat)
    | SizeReturned(p: nat, loadedHead: nat, loadedTail: nat)

  predicate Shape<T>(cap: Capacity, q: Queue<T>) {
    |q.buffer| == cap && |q.sequences| == cap
  }

  function Goto<T>(q: Queue<T>, p: nat, pc: Pc<T>): Queue<T>
    requires p < |q.threads|
  {
    q.(threads := q.threads[p := pc])
  }

  function EnqueueStep<T>(cap: Capacity, q: Queue<T>, p: nat, spurious: bool): (r: (Queue<T>, Event<T>))
    requires Shape(cap, q) && p < |q.threads|
    ensures Shape(cap, r.0) && |r.0.threads| == |q.threads|
  {
    match q.threads[p]
    case EnqueueSeq(item, pos) =>
      var diff := q.sequences[Index(pos, cap)] - pos;
      if diff == 0 then (Goto(q, p, EnqueueCas(item, pos)), Silent)
      else if diff < 0 then (Goto(q, p, Idle), EnqueueReturned(p, item, false))
      else (Goto(q, p, EnqueueReload(item, pos)), Silent)
    case EnqueueCas(item, pos) =>
      if q.head != pos then (Goto(q, p, EnqueueSeq(item, q.head)), Retried(p))
      else if spurious then (Goto(q, p, EnqueueSeq(item, pos)), Spurious(p))
      else (Goto(q, p, EnqueueWrite(item, pos)).(head := pos + 1), Claimed(p, item))
    case EnqueueReload(item, pos) =>
      (Goto(q, p, EnqueueSeq(item, q.head)), Retried(p))
    case EnqueueWrite(item, pos) =>
      (Goto(q, p, EnqueueStore(item, pos)).(buffer := q.buffer[Index(pos, cap) := item]), Silent)
    case EnqueueStore(item, pos) =>
      (Goto(q, p, Idle).(sequences := q.sequences[Index(pos, cap) := pos + 1]), EnqueueReturned(p, item, true))
    case _ => (q, Silent)
  }

  function DequeueStep<T>(cap: Capacity, q: Queue<T>, p: nat, spurious: bool): (r: (Queue<T>, Event<T>))
    requires Shape(cap, q) && p < |q.threads|
    ensures Shape(cap, r.0) && |r.0.threads| == |q.threads|
  {
    match q.threads[p]
    case DequeueSeq(pos) =>
      var diff := q.sequences[Index(pos, cap)] - (pos + 1);
      if diff == 0 then (Goto(q, p, DequeueCas(pos)), Silent)
      else if diff < 0 then (Goto(q, p, Idle), DequeueFailed(p))
      else (Goto(q, p, DequeueReload(pos)), Silent)
    case DequeueCas(pos) =>
      if q.tail != pos then (Goto(q, p, DequeueSeq(q.tail)), Retried(p))
      else if spurious then (Goto(q, p, DequeueSeq(pos)), Spurious(p))
      else (Goto(q, p, DequeueRead(pos)).(tail := pos + 1), Taken(p))
    case DequeueReload(pos) =>
      (Goto(q, p, DequeueSeq(q.tail)), Retried(p))
    case DequeueRead(pos) =>
      (Goto(q, p, DequeueStore(pos, q.buffer[Index(pos, cap)])), Silent)
    case DequeueStore(pos, item) =>
      (Goto(q, p, Idle).(sequences := q.sequences[Index(pos, cap) := pos + cap]), DequeueReturned(p, pos, item))
    case _ => (q, Silent)
  }

  function Step<T>(cap: Capacity, q: Queue<T>, p: nat, a: Action<T>): (r: (Queue<T>, Event<T>))
    requires Shape(cap, q)
    ensures Shape(cap, r.0) && |r.0.threads| == |q.threads|
  {
    if p >= |q.threads| then (q, Silent)
    else match q.threads[p]
      case Idle =>
        (match a
         case CallEnqueue(item) => (Goto(q, p, EnqueueSeq(item, q.head)), EnqueueCalled(p, item))
         case CallDequeue => (Goto(q, p, DequeueSeq(q.tail)), DequeueCalled(p))
         case CallSize => (Goto(q, p, SizeTail(q.head)), SizeCalled(p))
         case _ => (q, Silent))
      case SizeTail(h) =>
        if a.Run? then (Goto(q, p, Idle), SizeReturned(p, h, q.tail)) else (q, Silent)
      case pc =>
        if !a.Run? && !a.SpuriousFailure? then (q, Silent)
        else if InEnqueue(pc) then EnqueueStep(cap, q, p, a.SpuriousFailure?)
        else DequeueStep(cap, q, p, a.SpuriousFailure?)
  }

  predicate InEnqueue<T>(pc: Pc<T>) {
    pc.EnqueueSeq? || pc.EnqueueCas? || pc.EnqueueReload? || pc.EnqueueWrite? || pc.EnqueueStore?
  }

  predicate InDequeue<T>(pc: Pc<T>) {
    pc.DequeueSeq? || pc.DequeueCas? || pc.DequeueReload? || pc.DequeueRead? || pc.DequeueStore?
  }

  // ---- Runs ----

  type Schedule<T> = seq<(nat, Action<T>)>

  datatype Outcome<T> = Outcome(queue: Queue<T>, log: seq<Event<T>>)

  /** Follow a schedule, recording one event per step. */
  function Exec<T>(cap: Capacity, q: Queue<T>, s: Schedule<T>): (r: Outcome<T>)
    requires Shape(cap, q)
    ensures Shape(cap, r.queue) && |r.queue.threads| == |q.threads| && |r.log| == |s|
  {
    if s == [] then Outcome(q, [])
    else
      var before := Exec(cap, q, s[..|s| - 1]);
      var (next, event) := Step(cap, before.queue, s[|s| - 1].0, s[|s| - 1].1);
      Outcome(next, before.log + [event])
  }

  /** The constructor's state: slot i carries sequence number i; the buffer holds anything. */
  predicate Initial<T>(cap: Capacity, q: Queue<T>) {
    && Shape(cap, q)
    && q.head == 0 && q.tail == 0
    && (forall i :: 0 <= i < cap ==> q.sequences[i] == i)
    && (forall p :: 0 <= p < |q.threads| ==> q.threads[p].Idle?)
  }

  // ---- What an event log says ----

  /** The items of the successful compare-exchanges on head_, in order: the item of ticket t is at t. */
  function Claims<T>(log: seq<Event<T>>): (items: seq<T>)
    ensures |items| <= |log|
  {
    if log == [] then []
    else
      var e := log[|log| - 1];
      Claims(log[..|log| - 1]) + (if e.Claimed? then [e.item] else [])
  }

  lemma {:induction false} ExecAppend<T>(cap: Capacity, q: Queue<T>, s1: Schedule<T>, s2: Schedule<T>)
    requires Shape(cap, q)
    ensures Exec(cap, q, s1 + s2).queue == Exec(cap, Exec(cap, q, s1).queue, s2).queue
    ensures Exec(cap, q, s1 + s2).log == Exec(cap, q, s1).log + Exec(cap, Exec(cap, q, s1).queue, s2).log
    decreases |s2|
  {
    if s2 == [] {
      assert s1 + s2 == s1;
    } else {
      var rest := s2[..|s2| - 1];
      ExecAppend(cap, q, s1, rest);
      assert (s1 + s2)[..|s1 + s2| - 1] == s1 + rest;
    }
  }
}
