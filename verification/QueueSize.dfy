/** size() loads head_ and tail_ one after the other; when the difference of the two loads makes sense. */
module QueueSize {
  import opened Bits
  import opened QueueProtocol
  import opened QueueInvariant
  import opened QueueSolo

  /** Every result of size() by p in the log is at most cap, as a true difference. */
  ghost predicate SizesAtMost<T>(log: seq<Event<T>>, cap: nat) {
    forall k :: 0 <= k < |log| && log[k].SizeReturned? ==> log[k].loadedHead <= log[k].loadedTail + cap
  }

  ghost predicate SizesNonNegative<T>(log: seq<Event<T>>, p: nat) {
    forall k :: 0 <= k < |log| && log[k].SizeReturned? && log[k].p == p ==> log[k].loadedTail <= log[k].loadedHead
  }

  lemma {:induction false} SizeUpperBound<T>(cap: Capacity, q: Queue<T>, s: Schedule<T>)
    requires cap >= 2 && Initial(cap, q)
    ensures SizesAtMost(Exec(cap, q, s).log, cap)
  {
    if s != [] {
      SizeUpperBound(cap, q, s[..|s| - 1]);
      RunInv(cap, q, s[..|s| - 1]);
      var before := Exec(cap, q, s[..|s| - 1]);
      var (p, a) := s[|s| - 1];
      SizeStep(cap, before.queue, Claims(before.log), p, a);
    }
  }

  lemma SizeStep<T>(cap: Capacity, q: Queue<T>, items: seq<T>, p: nat, a: Action<T>)
    requires Inv(cap, q, items)
    ensures var e := Step(cap, q, p, a).1; e.SizeReturned? ==>
              && e.loadedHead <= e.loadedTail + cap
              && p < |q.threads| && e.p == p && q.threads[p] == SizeTail(e.loadedHead) && e.loadedTail == q.tail
  {
    if p < |q.threads| {
      assert ThreadOk(cap, q, items, q.threads[p]);
    }
  }

  /** Undisturbed, size() loads both counters of the same moment, and changes nothing. */
  lemma SoloSize<T>(cap: Capacity, q: Queue<T>, p: nat)
    requires Shape(cap, q) && p < |q.threads| && q.threads[p].Idle?
    ensures Exec(cap, q, [(p, CallSize)] + [(p, Run)]) == Outcome(q, [SizeCalled(p), SizeReturned(p, q.head, q.tail)])
  {
    OneStep(cap, q, p, CallSize);
    var called := Goto(q, p, SizeTail(q.head));
    OneStep(cap, called, p, Run);
    assert called.threads[p := Idle] == q.threads;
    ExecAppend(cap, q, [(p, CallSize)], [(p, Run)]);
  }

  // ---- When the difference cannot be negative ----

  /** Which threads may call which operation. */
  datatype Roles = Roles(producers: set<nat>, consumers: set<nat>)

  ghost predicate Obeys<T>(s: Schedule<T>, roles: Roles) {
    forall k :: 0 <= k < |s| ==>
      && (s[k].1.CallEnqueue? ==> s[k].0 in roles.producers)
      && (s[k].1.CallDequeue? ==> s[k].0 in roles.consumers)
  }

  ghost predicate SoleProducer(roles: Roles, n: nat, p: nat) {
    forall a :: a in roles.producers && a < n ==> a == p
  }

  ghost predicate SoleConsumer(roles: Roles, n: nat, p: nat) {
    forall b :: b in roles.consumers && b < n ==> b == p
  }

  ghost predicate InRole<T>(q: Queue<T>, roles: Roles) {
    forall r :: 0 <= r < |q.threads| ==>
      (InEnqueue(q.threads[r]) ==> r in roles.producers) && (InDequeue(q.threads[r]) ==> r in roles.consumers)
  }

  /** Between the two loads: the head still stands, or at least the tail has not passed it. */
  ghost predicate LoadCurrent<T>(q: Queue<T>, p: nat, roles: Roles)
    requires p < |q.threads|
  {
    q.threads[p].SizeTail? ==>
      if SoleProducer(roles, |q.threads|, p) then q.threads[p].loadedHead == q.head else q.tail <= q.threads[p].loadedHead
  }

  /** Which thread moves which counter, and how a thread enters an operation. */
  ghost predicate StepBy<T>(q: Queue<T>, a: Action<T>, q': Queue<T>, r: nat) {
    && r < |q.threads| == |q'.threads|
    && q'.threads == q.threads[r := q'.threads[r]]
    && (q'.head != q.head ==> InEnqueue(q.threads[r]))
    && (q'.tail != q.tail ==> InDequeue(q.threads[r]))
    && (InEnqueue(q'.threads[r]) ==> InEnqueue(q.threads[r]) || a.CallEnqueue?)
    && (InDequeue(q'.threads[r]) ==> InDequeue(q.threads[r]) || a.CallDequeue?)
    && (q'.threads[r].SizeTail? ==> q' == q || (q'.threads[r].loadedHead == q.head && q'.head == q.head && q'.tail == q.tail))
  }

  lemma StepIsBy<T>(cap: Capacity, q: Queue<T>, r: nat, a: Action<T>)
    requires Shape(cap, q)
    ensures var q' := Step(cap, q, r, a).0; q' == q || StepBy(q, a, q', r)
  {
    if r < |q.threads| {
      if InEnqueue(q.threads[r]) {
        EnqueueIsBy(cap, q, r, a, a.SpuriousFailure?);
      } else if InDequeue(q.threads[r]) {
        DequeueIsBy(cap, q, r, a, a.SpuriousFailure?);
      }
    }
  }

  lemma EnqueueIsBy<T>(cap: Capacity, q: Queue<T>, r: nat, a: Action<T>, spurious: bool)
    requires Shape(cap, q) && r < |q.threads| && InEnqueue(q.threads[r])
    ensures StepBy(q, a, EnqueueStep(cap, q, r, spurious).0, r)
  {
  }

  lemma DequeueIsBy<T>(cap: Capacity, q: Queue<T>, r: nat, a: Action<T>, spurious: bool)
    requires Shape(cap, q) && r < |q.threads| && InDequeue(q.threads[r])
    ensures StepBy(q, a, DequeueStep(cap, q, r, spurious).0, r)
  {
  }

  lemma RoleStep<T>(q: Queue<T>, q': Queue<T>, roles: Roles, r: nat, a: Action<T>, p: nat)
    requires q.tail <= q.head && StepBy(q, a, q', r) && InRole(q, roles)
    requires p < |q.threads| && (SoleProducer(roles, |q.threads|, p) || SoleConsumer(roles, |q.threads|, p)) && LoadCurrent(q, p, roles)
    requires (a.CallEnqueue? ==> r in roles.producers) && (a.CallDequeue? ==> r in roles.consumers)
    ensures InRole(q', roles) && LoadCurrent(q', p, roles)
  {
    assert InEnqueue(q.threads[r]) ==> r in roles.producers;
    assert InDequeue(q.threads[r]) ==> r in roles.consumers;
  }

  lemma {:induction false} SoleUserRun<T>(cap: Capacity, q: Queue<T>, s: Schedule<T>, roles: Roles, p: nat)
    requires cap >= 2 && Initial(cap, q) && Obeys(s, roles) && p < |q.threads|
    requires SoleProducer(roles, |q.threads|, p) || SoleConsumer(roles, |q.threads|, p)
    ensures var r := Exec(cap, q, s);
            InRole(r.queue, roles) && LoadCurrent(r.queue, p, roles) && SizesNonNegative(r.log, p)
  {
    if s != [] {
      SoleUserRun(cap, q, s[..|s| - 1], roles, p);
      RunInv(cap, q, s[..|s| - 1]);
      var before := Exec(cap, q, s[..|s| - 1]);
      var (r, a) := s[|s| - 1];
      assert s[|s| - 1].1 == a;
      StepIsBy(cap, before.queue, r, a);
      var q' := Step(cap, before.queue, r, a).0;
      if q' != before.queue {
        RoleStep(before.queue, q', roles, r, a, p);
      }
      SizeStep(cap, before.queue, Claims(before.log), r, a);
    }
  }

  // ---- ... and when it can ----

  function PassingThrough<T>(a: nat, b: nat, item: T): Schedule<T> {
    LoneEnqueue(a, item) + LoneDequeue(b)
  }

  /** p loads head_, a enqueues, b dequeues, p loads tail_. */
  function OvertakingSchedule<T>(p: nat, a: nat, b: nat, item: T): Schedule<T> {
    ([(p, CallSize)] + PassingThrough(a, b, item)) + [(p, Run)]
  }

  lemma PassesThrough<T>(cap: Capacity, q: Queue<T>, a: nat, b: nat, item: T)
    requires cap >= 2 && Shape(cap, q) && q.head == 0 && q.tail == 0 && SeqAt(cap, q, 0) == 0
    requires a < |q.threads| && b < |q.threads| && q.threads[a].Idle? && q.threads[b].Idle?
    ensures var r := Exec(cap, q, PassingThrough(a, b, item)).queue; r.threads == q.threads && r.tail == 1
  {
    var s1, s2: Schedule<T> := LoneEnqueue(a, item), LoneDequeue(b);
    CallEnqueueAlone(cap, q, a, item);
    var r := Exec(cap, q, s1).queue;
    CallDequeueAlone(cap, r, b);
    ExecAppend(cap, q, s1, s2);
  }

  lemma Overtaken<T>(cap: Capacity, q: Queue<T>, p: nat, a: nat, b: nat, item: T)
    requires cap >= 2 && Initial(cap, q) && p < |q.threads| && a < |q.threads| && b < |q.threads| && a != p && b != p
    ensures var log := Exec(cap, q, OvertakingSchedule(p, a, b, item)).log;
            |log| > 0 && log[|log| - 1] == SizeReturned(p, 0, 1)
  {
    var s1: Schedule<T> := [(p, CallSize)];
    var s2 := PassingThrough(a, b, item);
    OneStep(cap, q, p, CallSize);
    var q1 := Goto(q, p, SizeTail(0));
    PassesThrough(cap, q1, a, b, item);
    var q2 := Exec(cap, q1, s2).queue;
    ExecAppend(cap, q, s1, s2);
    ExecAppend(cap, q, s1 + s2, [(p, Run)]);
    OneStep(cap, q2, p, Run);
  }

  ghost predicate SizeNeverNegative(cap: Capacity, n: nat, roles: Roles, p: nat) {
    forall q: Queue<int>, s: Schedule<int> :: Initial(cap, q) && |q.threads| == n && Obeys(s, roles) ==> SizesNonNegative(Exec(cap, q, s).log, p)
  }

  /** size() called by p can never go below zero exactly when p is the only producer or the only consumer. */
  lemma SizeExact(cap: Capacity, n: nat, roles: Roles, p: nat)
    requires cap >= 2 && p < n
    ensures SizeNeverNegative(cap, n, roles, p) <==> SoleProducer(roles, n, p) || SoleConsumer(roles, n, p)
  {
    if SoleProducer(roles, n, p) || SoleConsumer(roles, n, p) {
      forall q: Queue<int>, s: Schedule<int> | Initial(cap, q) && |q.threads| == n && Obeys(s, roles)
        ensures SizesNonNegative(Exec(cap, q, s).log, p)
      {
        SoleUserRun(cap, q, s, roles, p);
      }
    } else {
      var a :| a in roles.producers && a < n && a != p;
      var b :| b in roles.consumers && b < n && b != p;
      var q: Queue<int> := Queue(0, 0, seq(cap, i => 0), seq(cap, i => i), seq(n, i => Idle));
      var s := OvertakingSchedule(p, a, b, 0);
      AloneRuns<int>(a, 4);
      AloneRuns<int>(b, 4);
      assert Obeys(s, roles);
      Overtaken(cap, q, p, a, b, 0);
      var log := Exec(cap, q, s).log;
      assert log[|log| - 1].SizeReturned?;
      assert !SizesNonNegative(log, p);
    }
  }
}
