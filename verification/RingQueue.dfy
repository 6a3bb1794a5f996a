/** The queue used from one thread: arrays, masks and retry loops, refining a bounded sequence. */
module RingQueue {
  import opened Bits

  /** With nothing in flight, every slot is published for a queued ticket or released for the next round. */
  ghost predicate RingOk<T>(cap: Capacity, head: nat, tail: nat, buffer: seq<T>, sequences: seq<nat>, items: seq<T>) {
    && cap >= 2
    && |buffer| == cap && |sequences| == cap
    && tail <= head <= tail + cap && |items| == head
    && (forall t {:trigger Slot(t, cap)} :: tail <= t < head ==> sequences[Slot(t, cap)] == t + 1 && buffer[Slot(t, cap)] == items[t])
    && (forall t {:trigger Slot(t, cap)} :: head - cap <= t < tail ==> sequences[Slot(t, cap)] == t + cap)
  }

  lemma InitialOk<T>(cap: Capacity, buffer: seq<T>, sequences: seq<nat>)
    requires cap >= 2 && |buffer| == cap && |sequences| == cap && forall i :: 0 <= i < cap ==> sequences[i] == i
    ensures RingOk(cap, 0, 0, buffer, sequences, [])
  {
    forall t | 0 <= t + cap < cap ensures sequences[Slot(t, cap)] == t + cap {
      SlotPeriod(t, cap);
      assert Slot(t + cap, cap) == t + cap;
    }
  }

  lemma EnqueueOk<T>(cap: Capacity, head: nat, tail: nat, buffer: seq<T>, sequences: seq<nat>, items: seq<T>, item: T)
    requires RingOk(cap, head, tail, buffer, sequences, items) && head < tail + cap
    ensures RingOk(cap, head + 1, tail, buffer[Slot(head, cap) := item], sequences[Slot(head, cap) := head + 1], items + [item])
  {
    OtherSlots(cap, head);
  }

  lemma DequeueOk<T>(cap: Capacity, head: nat, tail: nat, buffer: seq<T>, sequences: seq<nat>, items: seq<T>)
    requires RingOk(cap, head, tail, buffer, sequences, items) && tail < head
    ensures RingOk(cap, head, tail + 1, buffer, sequences[Slot(tail, cap) := tail + cap], items)
    ensures buffer[Slot(tail, cap)] == items[tail]
  {
    OtherSlots(cap, tail);
  }

  /** What the sequence numbers at the two ends say about the contents. */
  lemma Ends<T>(cap: Capacity, head: nat, tail: nat, buffer: seq<T>, sequences: seq<nat>, items: seq<T>)
    requires RingOk(cap, head, tail, buffer, sequences, items)
    ensures Index(head, cap) == Slot(head, cap) && Index(tail, cap) == Slot(tail, cap)
    ensures sequences[Slot(head, cap)] == if head < tail + cap then head else head - cap + 1
    ensures sequences[Slot(tail, cap)] == if tail < head then tail + 1 else tail
  {
    IndexIsSlot(head, cap);
    IndexIsSlot(tail, cap);
    SlotPeriod(head - cap, cap);
    assert Slot(head - cap, cap) == Slot(head, cap);
  }

  class Ring<T(0)> {
    const cap: Capacity
    var head: nat
    var tail: nat
    const buffer: array<T>
    const sequences: array<nat>
    ghost var items: seq<T>  // the item of every ticket so far

    ghost predicate Valid()
      reads this, buffer, sequences
    {
      buffer as object != sequences && RingOk(cap, head, tail, buffer[..], sequences[..], items)
    }

    ghost function Contents(): (s: seq<T>)
      requires Valid()
      reads this, buffer, sequences
    {
      items[tail..]
    }

    constructor (capacity: Capacity)
      ensures cap == capacity && head == 0 && tail == 0 && buffer.Length == sequences.Length == cap
      ensures forall i :: 0 <= i < cap ==> sequences[i] == i
      ensures capacity >= 2 ==> Valid() && Contents() == []
      ensures fresh(buffer) && fresh(sequences)
    {
      cap := capacity;
      head := 0;
      tail := 0;
      buffer := new T[capacity];
      sequences := new nat[capacity];
      items := [];
      new;
      for i := 0 to cap
        invariant buffer as object != sequences && head == 0 && tail == 0 && items == []
        invariant forall j :: 0 <= j < i ==> sequences[j] == j
      {
        sequences[i] := i;
      }
      if cap >= 2 {
        InitialOk(cap, buffer[..], sequences[..]);
      }
    }

    /** The first `spurious` compare-exchanges fail although the value matches. */
    method TryEnqueue(item: T, spurious: nat) returns (ok: bool, passes: nat)
      requires Valid()
      modifies this, buffer, sequences
      ensures Valid()
      ensures ok <==> |old(Contents())| < cap
      ensures Contents() == if ok then old(Contents()) + [item] else old(Contents())
      ensures passes == if ok then spurious + 1 else 1
    {
      Ends(cap, head, tail, buffer[..], sequences[..], items);
      var pos := head;
      var index := Index(pos, cap);
      var failures := spurious;
      passes := 0;
      while true
        invariant pos == head && passes + failures == spurious && failures >= 0
        invariant passes > 0 ==> head < tail + cap
        decreases failures
      {
        passes := passes + 1;
        index := Index(pos, cap);
        var diff := sequences[index] as int - pos as int;
        if diff == 0 {
          if head == pos && failures == 0 {
            break;  // compare-exchange succeeded
          }
          pos := head;
          failures := failures - 1;
        } else if diff < 0 {
          ok := false;
          return;
        } else {
          assert false;
        }
      }
      Claim(pos, index, item);
      ok := true;
    }

    /** The claim and what follows it: head_, the item, the sequence number. */
    method Claim(pos: nat, index: nat, item: T)
      requires Valid() && pos == head < tail + cap && index == Slot(pos, cap)
      modifies this, buffer, sequences
      ensures Valid() && Contents() == old(Contents()) + [item]
    {
      EnqueueOk(cap, head, tail, buffer[..], sequences[..], items, item);
      head := pos + 1;
      buffer[index] := item;
      sequences[index] := pos + 1;
      items := items + [item];
    }

    /** `current` is the caller's variable, which a failing call leaves alone. */
    method TryDequeue(current: T, spurious: nat) returns (ok: bool, item: T, passes: nat)
      requires Valid()
      modifies this, buffer, sequences
      ensures Valid()
      ensures ok <==> |old(Contents())| > 0
      ensures ok ==> item == old(Contents())[0] && Contents() == old(Contents())[1..]
      ensures !ok ==> item == current && Contents() == old(Contents())
      ensures passes == if ok then spurious + 1 else 1
    {
      Ends(cap, head, tail, buffer[..], sequences[..], items);
      item := current;
      var pos := tail;
      var index := Index(pos, cap);
      var failures := spurious;
      passes := 0;
      while true
        invariant pos == tail && item == current && passes + failures == spurious && failures >= 0
        invariant passes > 0 ==> tail < head
        decreases failures
      {
        passes := passes + 1;
        index := Index(pos, cap);
        var diff := sequences[index] as int - (pos + 1) as int;
        if diff == 0 {
          if tail == pos && failures == 0 {
            break;  // compare-exchange succeeded
          }
          pos := tail;
          failures := failures - 1;
        } else if diff < 0 {
          ok := false;
          return;
        } else {
          assert false;
        }
      }
      item := Take(pos, index);
      ok := true;
    }

    method Take(pos: nat, index: nat) returns (item: T)
      requires Valid() && pos == tail < head && index == Slot(pos, cap)
      modifies this, buffer, sequences
      ensures Valid() && item == old(Contents())[0] && Contents() == old(Contents())[1..]
    {
      DequeueOk(cap, head, tail, buffer[..], sequences[..], items);
      tail := pos + 1;
      item := buffer[index];
      sequences[index] := pos + cap;
    }

    method Size() returns (n: nat)
      requires Valid()
      ensures n == |Contents()| <= cap
    {
      n := head - tail;
    }

    method Empty() returns (b: bool)
      requires Valid()
      ensures b <==> Contents() == []
    {
      var n := Size();
      b := n == 0;
    }
  }

  // ---- Whole operation lists against a bounded sequence ----

  datatype Op<T> = Enqueue(item: T) | Dequeue
  datatype Result<T> = Accepted | Full | Got(item: T) | Nothing

  /** One operation of a bounded FIFO list. */
  function FifoStep<T>(cap: nat, content: seq<T>, op: Op<T>): (r: (seq<T>, Result<T>))
    ensures |content| <= cap ==> |r.0| <= cap
  {
    match op
    case Enqueue(item) => if |content| < cap then (content + [item], Accepted) else (content, Full)
    case Dequeue => if content != [] then (content[1..], Got(content[0])) else (content, Nothing)
  }

  /** Its contents and the results of the operations so far. */
  function Fifo<T>(cap: nat, ops: seq<Op<T>>): (r: (seq<T>, seq<Result<T>>))
    ensures |r.0| <= cap && |r.1| == |ops|
  {
    if ops == [] then ([], [])
    else
      var (content, results) := Fifo(cap, ops[..|ops| - 1]);
      var (next, result) := FifoStep(cap, content, ops[|ops| - 1]);
      (next, results + [result])
  }

  predicate Succeeded<T>(r: Result<T>) {
    r.Accepted? || r.Got?
  }

  /** The passes through the loops of calls with the given results, when the i-th call meets spurious(i) failures. */
  function Passes<T>(results: seq<Result<T>>, spurious: nat -> nat): (passes: seq<nat>)
    ensures |passes| == |results|
  {
    seq(|results|, i requires 0 <= i < |results| => if Succeeded(results[i]) then spurious(i) + 1 else 1)
  }

  method PerformOne<T(0)>(ring: Ring<T>, op: Op<T>, spurious: nat, initial: T) returns (result: Result<T>, passes: nat)
    requires ring.Valid()
    modifies ring, ring.buffer, ring.sequences
    ensures ring.Valid() && (ring.Contents(), result) == FifoStep(ring.cap, old(ring.Contents()), op)
    ensures passes == if Succeeded(result) then spurious + 1 else 1
  {
    var ok;
    match op
    case Enqueue(item) =>
      ok, passes := ring.TryEnqueue(item, spurious);
      result := if ok then Accepted else Full;
    case Dequeue =>
      var item;
      ok, item, passes := ring.TryDequeue(initial, spurious);
      result := if ok then Got(item) else Nothing;
  }

  /** Over every operation list, and with any spurious failures, the ring gives the results of the bounded list. */
  method Perform<T(0)>(cap: Capacity, ops: seq<Op<T>>, spurious: nat -> nat, initial: T) returns (results: seq<Result<T>>, passes: seq<nat>)
    requires cap >= 2
    ensures results == Fifo(cap, ops).1
    ensures passes == Passes(results, spurious)
  {
    var ring := new Ring<T>(cap);
    results, passes := [], [];
    for i := 0 to |ops|
      invariant ring.Valid() && ring.cap == cap && fresh(ring) && fresh(ring.buffer) && fresh(ring.sequences)
      invariant (ring.Contents(), results) == Fifo(cap, ops[..i])
      invariant passes == Passes(results, spurious)
    {
      assert ops[..i + 1][..i] == ops[..i];
      var result, n := PerformOne(ring, ops[i], spurious(i), initial);
      PassesGrow(results, result, spurious);
      results, passes := results + [result], passes + [n];
    }
    assert ops[..|ops|] == ops;
  }

  lemma PassesGrow<T>(results: seq<Result<T>>, r: Result<T>, spurious: nat -> nat)
    ensures Passes(results + [r], spurious) == Passes(results, spurious) + [if Succeeded(r) then spurious(|results|) + 1 else 1]
  {
  }
}
