/** Lock-freedom with a bound: a call goes round its loop at most once per ticket that another thread claims. */
module QueueProgress {
  import opened Bits
  import opened QueueProtocol
  import opened QueueInvariant

  /** The counter a call works on: head_ for try_enqueue, tail_ for try_dequeue. */
  datatype Side = Producing | Consuming

  function Counter<T>(q: Queue<T>, side: Side): nat {
    if side.Producing? then q.head else q.tail
  }

  /** A successful compare-exchange on the side's counter. */
  predicate Wins<T>(e: Event<T>, side: Side) {
    if side.Producing? then e.Claimed? else e.Taken?
  }

  predicate LoopOn<T>(pc: Pc<T>, side: Side) {
    if side.Producing? then pc.EnqueueSeq? || pc.EnqueueCas? || pc.EnqueueReload?
    else pc.DequeueSeq? || pc.DequeueCas? || pc.DequeueReload?
  }

  predicate InLoop<T>(pc: Pc<T>) {
    LoopOn(pc, Producing) || LoopOn(pc, Consuming)
  }

  function Retries<T>(log: seq<Event<T>>, p: nat): nat {
    if log == [] then 0
    else var e := log[|log| - 1]; Retries(log[..|log| - 1], p) + (if e == Retried(p) then 1 else 0)
  }

  /** Successful compare-exchanges by threads other than p. */
  function OtherWins<T>(log: seq<Event<T>>, p: nat, side: Side): nat {
    if log == [] then 0
    else var e := log[|log| - 1]; OtherWins(log[..|log| - 1], p, side) + (if Wins(e, side) && e.p != p then 1 else 0)
  }

  predicate IsCall<T>(a: Action<T>) {
    a.CallEnqueue? || a.CallDequeue? || a.CallSize?
  }

  /** One step by anyone: p's position moves ahead at every retry, and outside the loops p does not retry. */
  ghost predicate Advances<T>(q: Queue<T>, e: Event<T>, q': Queue<T>, p: nat, calls: bool, side: Side)
    requires p < |q.threads| == |q'.threads|
  {
    var pc, pc' := q.threads[p], q'.threads[p];
    && Counter(q', side) == Counter(q, side) + (if Wins(e, side) then 1 else 0)
    && (LoopOn(pc, side) ==>
          if LoopOn(pc', side) then pc'.pos >= pc.pos + (if e == Retried(p) then 1 else 0) && (Wins(e, side) ==> e.p != p)
          else !InLoop(pc') && e != Retried(p))
    && (!InLoop(pc) && !calls ==> !InLoop(pc') && e != Retried(p))
  }

  lemma EnqueueAdvances<T>(cap: Capacity, q: Queue<T>, items: seq<T>, o: nat, spurious: bool, p: nat, side: Side)
    requires Inv(cap, q, items) && p < |q.threads| && o < |q.threads| && InEnqueue(q.threads[o])
    ensures var (q', e) := EnqueueStep(cap, q, o, spurious); Advances(q, e, q', p, false, side)
  {
    assert ThreadOk(cap, q, items, q.threads[o]);
  }

  lemma DequeueAdvances<T>(cap: Capacity, q: Queue<T>, items: seq<T>, o: nat, spurious: bool, p: nat, side: Side)
    requires Inv(cap, q, items) && p < |q.threads| && o < |q.threads| && InDequeue(q.threads[o])
    ensures var (q', e) := DequeueStep(cap, q, o, spurious); Advances(q, e, q', p, false, side)
  {
    assert ThreadOk(cap, q, items, q.threads[o]);
  }

  lemma StepAdvances<T>(cap: Capacity, q: Queue<T>, items: seq<T>, o: nat, a: Action<T>, p: nat, side: Side)
    requires cap >= 2 && Inv(cap, q, items) && p < |q.threads|
    ensures var (q', e) := Step(cap, q, o, a); Advances(q, e, q', p, o == p && IsCall(a), side)
  {
    if o < |q.threads| {
      if InEnqueue(q.threads[o]) {
        EnqueueAdvances(cap, q, items, o, a.SpuriousFailure?, p, side);
      } else if InDequeue(q.threads[o]) {
        DequeueAdvances(cap, q, items, o, a.SpuriousFailure?, p, side);
      }
    }
  }

  /** The bound on the retries of a call of p that began when its counter stood at c. */
  ghost predicate Quota<T>(c: nat, r: Outcome<T>, p: nat, side: Side)
    requires p < |r.queue.threads|
  {
    var pc := r.queue.threads[p];
    if LoopOn(pc, side) then pc.pos >= c + Retries(r.log, p) && Counter(r.queue, side) == c + OtherWins(r.log, p, side)
    else !InLoop(pc) && Retries(r.log, p) <= OtherWins(r.log, p, side)
  }

  lemma QuotaStep<T>(c: nat, r: Outcome<T>, e: Event<T>, q': Queue<T>, p: nat, side: Side)
    requires p < |r.queue.threads| == |q'.threads|
    requires Quota(c, r, p, side) && Advances(r.queue, e, q', p, false, side)
    requires LoopOn(r.queue.threads[p], side) ==> r.queue.threads[p].pos <= Counter(r.queue, side)
    ensures Quota(c, Outcome(q', r.log + [e]), p, side)
  {
    var log := r.log + [e];
    assert log[..|log| - 1] == r.log && log[|log| - 1] == e;
  }

  /** Positions never pass the counter. */
  lemma PositionBehind<T>(cap: Capacity, q: Queue<T>, items: seq<T>, p: nat, side: Side)
    requires Inv(cap, q, items) && p < |q.threads|
    ensures LoopOn(q.threads[p], side) ==> q.threads[p].pos <= Counter(q, side)
  {
    assert ThreadOk(cap, q, items, q.threads[p]);
  }

  /** Thread p starts no other call. */
  ghost predicate NoCallBy<T>(s: Schedule<T>, p: nat) {
    forall k :: 0 <= k < |s| && s[k].0 == p ==> !IsCall(s[k].1)
  }

  lemma {:induction false} QuotaKept<T>(cap: Capacity, q: Queue<T>, items: seq<T>, s: Schedule<T>, p: nat, side: Side)
    requires cap >= 2 && Inv(cap, q, items) && p < |q.threads| && NoCallBy(s, p)
    requires LoopOn(q.threads[p], side) && q.threads[p].pos == Counter(q, side)
    ensures Quota(Counter(q, side), Exec(cap, q, s), p, side)
  {
    if s != [] {
      var before := Exec(cap, q, s[..|s| - 1]);
      var (o, a) := s[|s| - 1];
      QuotaKept(cap, q, items, s[..|s| - 1], p, side);
      RunInvFrom(cap, q, items, s[..|s| - 1]);
      var now := items + Claims(before.log);
      StepAdvances(cap, before.queue, now, o, a, p, side);
      PositionBehind(cap, before.queue, now, p, side);
      var (next, e) := Step(cap, before.queue, o, a);
      QuotaStep(Counter(q, side), before, e, next, p, side);
    }
  }

  lemma QuotaBounds<T>(cap: Capacity, c: nat, r: Outcome<T>, items: seq<T>, p: nat, side: Side)
    requires Inv(cap, r.queue, items) && p < |r.queue.threads| && Quota(c, r, p, side)
    ensures Retries(r.log, p) <= OtherWins(r.log, p, side)
  {
    PositionBehind(cap, r.queue, items, p, side);
  }

  /**
   From its beginning to any later moment, its return and after included, a call has retried at most as often
   as other threads succeeded on the same counter.
   */
  lemma RetriesBounded<T>(cap: Capacity, q: Queue<T>, s: Schedule<T>, p: nat, call: Action<T>, during: Schedule<T>)
    requires cap >= 2 && Initial(cap, q) && p < |q.threads| && Exec(cap, q, s).queue.threads[p].Idle?
    requires (call.CallEnqueue? || call.CallDequeue?) && NoCallBy(during, p)
    ensures var begun := Step(cap, Exec(cap, q, s).queue, p, call).0; var log := Exec(cap, begun, during).log;
            Retries(log, p) <= OtherWins(log, p, if call.CallEnqueue? then Producing else Consuming)
  {
    RunInv(cap, q, s);
    var r := Exec(cap, q, s);
    var items, side := Claims(r.log), if call.CallEnqueue? then Producing else Consuming;
    var begun := Step(cap, r.queue, p, call).0;
    assert items + [] == items;
    StepInv(cap, r.queue, items, p, call);
    QuotaKept(cap, begun, items, during, p, side);
    RunInvFrom(cap, begun, items, during);
    var end := Exec(cap, begun, during);
    QuotaBounds(cap, Counter(begun, side), end, items + Claims(end.log), p, side);
  }

  // ---- A call returns ----

  /** Steps that a call of the given side takes at most until its return, if nobody else succeeds on its counter. */
  function CallRank<T>(q: Queue<T>, pc: Pc<T>): nat {
    match pc
    case EnqueueSeq(_, pos) => if pos == q.head then 6 else 9
    case EnqueueCas(_, pos) => if pos == q.head then 5 else 8
    case EnqueueReload(_, _) => 8
    case EnqueueWrite(_, _) => 3
    case EnqueueStore(_, _) => 2
    case DequeueSeq(pos) => if pos == q.tail then 6 else 9
    case DequeueCas(pos) => if pos == q.tail then 5 else 8
    case DequeueReload(_) => 8
    case DequeueRead(_) => 3
    case DequeueStore(_, _) => 2
    case _ => 0
  }

  predicate InCall<T>(pc: Pc<T>, side: Side) {
    if side.Producing? then InEnqueue(pc) else InDequeue(pc)
  }

  /** p's steps of one kind in a schedule. */
  function OwnSteps<T>(s: Schedule<T>, p: nat, spurious: bool): nat {
    if s == [] then 0
    else
      var (o, a) := s[|s| - 1];
      OwnSteps(s[..|s| - 1], p, spurious) + (if o == p && (if spurious then a.SpuriousFailure? else a.Run?) then 1 else 0)
  }

  /** p has returned, or its steps so far are within the bound. */
  ghost predicate Returning<T>(r: Outcome<T>, s: Schedule<T>, p: nat, side: Side)
    requires p < |r.queue.threads|
  {
    var pc := r.queue.threads[p];
    || pc.Idle?
    || (InCall(pc, side) && CallRank(r.queue, pc) + OwnSteps(s, p, false) <= 6 + 3 * OtherWins(r.log, p, side) + OwnSteps(s, p, true))
  }

  /** What one step does to the rank of p's call. */
  ghost predicate RankMoves<T>(q: Queue<T>, e: Event<T>, q': Queue<T>, p: nat, side: Side, regular: bool, spurious: bool)
    requires p < |q.threads| == |q'.threads|
  {
    var pc, pc' := q.threads[p], q'.threads[p];
    || pc'.Idle?
    || (InCall(pc', side) && CallRank(q', pc') + (if regular then 1 else 0)
          <= CallRank(q, pc) + (if Wins(e, side) && e.p != p then 3 else 0) + (if spurious then 1 else 0))
  }

  lemma OwnEnqueueRank<T>(cap: Capacity, q: Queue<T>, items: seq<T>, p: nat, spurious: bool)
    requires cap >= 2 && Inv(cap, q, items) && p < |q.threads| && InEnqueue(q.threads[p])
    ensures var (q', e) := EnqueueStep(cap, q, p, spurious); RankMoves(q, e, q', p, Producing, !spurious, spurious)
  {
    assert ThreadOk(cap, q, items, q.threads[p]);
    IndexIsSlot(q.threads[p].pos, cap);
    SeqAtHead(cap, q, items);
  }

  lemma OwnDequeueRank<T>(cap: Capacity, q: Queue<T>, items: seq<T>, p: nat, spurious: bool)
    requires cap >= 2 && Inv(cap, q, items) && p < |q.threads| && InDequeue(q.threads[p])
    ensures var (q', e) := DequeueStep(cap, q, p, spurious); RankMoves(q, e, q', p, Consuming, !spurious, spurious)
  {
    assert ThreadOk(cap, q, items, q.threads[p]);
    IndexIsSlot(q.threads[p].pos, cap);
    TailSeq(cap, q, items);
  }

  /** A step of another thread. */
  lemma OtherRank<T>(cap: Capacity, q: Queue<T>, items: seq<T>, o: nat, a: Action<T>, p: nat, side: Side)
    requires cap >= 2 && Inv(cap, q, items) && p < |q.threads| && o != p && InCall(q.threads[p], side)
    ensures var (q', e) := Step(cap, q, o, a); RankMoves(q, e, q', p, side, false, false)
  {
    StepAdvances(cap, q, items, o, a, p, side);
    OtherThread(cap, q, o, a, p);
  }

  lemma OtherThread<T>(cap: Capacity, q: Queue<T>, o: nat, a: Action<T>, p: nat)
    requires Shape(cap, q) && p < |q.threads| && o != p
    ensures var (q', e) := Step(cap, q, o, a); q'.threads[p] == q.threads[p] && (e.Claimed? || e.Taken? ==> e.p == o)
  {
  }

  lemma StepRank<T>(cap: Capacity, q: Queue<T>, items: seq<T>, o: nat, a: Action<T>, p: nat, side: Side)
    requires cap >= 2 && Inv(cap, q, items) && p < |q.threads| && InCall(q.threads[p], side) && (o == p ==> !IsCall(a))
    ensures var (q', e) := Step(cap, q, o, a); RankMoves(q, e, q', p, side, o == p && a.Run?, o == p && a.SpuriousFailure?)
  {
    if o != p {
      OtherRank(cap, q, items, o, a, p, side);
    } else if side.Producing? {
      OwnEnqueueRank(cap, q, items, p, a.SpuriousFailure?);
    } else {
      OwnDequeueRank(cap, q, items, p, a.SpuriousFailure?);
    }
  }

  lemma IdleStays<T>(cap: Capacity, q: Queue<T>, o: nat, a: Action<T>, p: nat)
    requires Shape(cap, q) && p < |q.threads| && q.threads[p].Idle? && (o == p ==> !IsCall(a))
    ensures Step(cap, q, o, a).0.threads[p].Idle?
  {
    if o != p {
      OtherThread(cap, q, o, a, p);
    }
  }

  lemma ReturningStep<T>(r: Outcome<T>, s: Schedule<T>, e: Event<T>, q': Queue<T>, o: nat, a: Action<T>, p: nat, side: Side)
    requires p < |r.queue.threads| == |q'.threads| && Returning(r, s, p, side) && !r.queue.threads[p].Idle?
    requires RankMoves(r.queue, e, q', p, side, o == p && a.Run?, o == p && a.SpuriousFailure?)
    ensures Returning(Outcome(q', r.log + [e]), s + [(o, a)], p, side)
  {
    var log, all := r.log + [e], s + [(o, a)];
    assert log[..|log| - 1] == r.log && log[|log| - 1] == e;
    assert all[..|all| - 1] == s && all[|all| - 1] == (o, a);
  }

  lemma {:induction false} ReturningKept<T>(cap: Capacity, q: Queue<T>, items: seq<T>, s: Schedule<T>, p: nat, side: Side)
    requires cap >= 2 && Inv(cap, q, items) && p < |q.threads| && NoCallBy(s, p)
    requires LoopOn(q.threads[p], side) && CallRank(q, q.threads[p]) <= 6
    ensures Returning(Exec(cap, q, s), s, p, side)
  {
    if s != [] {
      var init := s[..|s| - 1];
      var before := Exec(cap, q, init);
      var (o, a) := s[|s| - 1];
      assert s[|s| - 1] == (o, a) && s == init + [(o, a)];
      ReturningKept(cap, q, items, init, p, side);
      if before.queue.threads[p].Idle? {
        IdleStays(cap, before.queue, o, a, p);
      } else {
        RunInvFrom(cap, q, items, init);
        StepRank(cap, before.queue, items + Claims(before.log), o, a, p, side);
        var (next, e) := Step(cap, before.queue, o, a);
        ReturningStep(before, init, e, next, o, a, p, side);
      }
    }
  }

  lemma Begins<T>(cap: Capacity, q: Queue<T>, items: seq<T>, p: nat, call: Action<T>, side: Side) returns (begun: Queue<T>)
    requires cap >= 2 && Inv(cap, q, items) && p < |q.threads| && q.threads[p].Idle?
    requires if side.Producing? then call.CallEnqueue? else call.CallDequeue?
    ensures begun == Step(cap, q, p, call).0 && Inv(cap, begun, items) && |begun.threads| == |q.threads|
    ensures LoopOn(begun.threads[p], side) && CallRank(begun, begun.threads[p]) == 6
  {
    begun := Step(cap, q, p, call).0;
    assert items + [] == items;
    StepInv(cap, q, items, p, call);
  }

  /** The bound on p's own steps. */
  ghost predicate EnoughSteps<T>(log: seq<Event<T>>, s: Schedule<T>, p: nat, side: Side) {
    OwnSteps(s, p, false) >= 6 + 3 * OtherWins(log, p, side) + OwnSteps(s, p, true)
  }

  lemma HasReturned<T>(r: Outcome<T>, s: Schedule<T>, p: nat, side: Side)
    requires p < |r.queue.threads| && Returning(r, s, p, side) && EnoughSteps(r.log, s, p, side)
    ensures r.queue.threads[p].Idle?
  {
  }

  function SideOf<T>(call: Action<T>): Side {
    if call.CallEnqueue? then Producing else Consuming
  }

  /**
   A call returns: at the latest after six steps of its own, three for every success of another thread on the same
   counter, and one for every spurious failure, however the others' steps are interleaved.
   */
  lemma CallReturns<T>(cap: Capacity, q: Queue<T>, s: Schedule<T>, p: nat, call: Action<T>, during: Schedule<T>)
    requires cap >= 2 && Initial(cap, q) && p < |q.threads| && Exec(cap, q, s).queue.threads[p].Idle?
    requires (call.CallEnqueue? || call.CallDequeue?) && NoCallBy(during, p)
    requires EnoughSteps(Exec(cap, Step(cap, Exec(cap, q, s).queue, p, call).0, during).log, during, p, SideOf(call))
    ensures Exec(cap, Step(cap, Exec(cap, q, s).queue, p, call).0, during).queue.threads[p].Idle?
  {
    RunInv(cap, q, s);
    var r := Exec(cap, q, s);
    var begun := Begins(cap, r.queue, Claims(r.log), p, call, SideOf(call));
    ReturningKept(cap, begun, Claims(r.log), during, p, SideOf(call));
    HasReturned(Exec(cap, begun, during), during, p, SideOf(call));
  }
}
