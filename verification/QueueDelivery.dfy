/** Conservation and order over whole runs: every ticket is delivered once, with its own item, in order. */
module QueueDelivery {
  import opened Bits
  import opened QueueProtocol
  import opened QueueInvariant

  // ---- What single events contribute ----

  function ReturnedTicket<T>(e: Event<T>): seq<nat> {
    if e.DequeueReturned? then [e.ticket] else []
  }

  function ReturnedItem<T>(e: Event<T>): seq<T> {
    if e.DequeueReturned? then [e.item] else []
  }

  function AcceptedItem<T>(e: Event<T>): seq<T> {
    if e.EnqueueReturned? && e.ok then [e.item] else []
  }

  function TakenNow<T>(e: Event<T>, tail: nat): seq<nat> {
    if e.Taken? then [tail] else []
  }

  // ---- Histories ----

  function DeliveredTickets<T>(log: seq<Event<T>>): seq<nat> {
    if log == [] then [] else DeliveredTickets(log[..|log| - 1]) + ReturnedTicket(log[|log| - 1])
  }

  function DeliveredItems<T>(log: seq<Event<T>>): seq<T> {
    if log == [] then [] else DeliveredItems(log[..|log| - 1]) + ReturnedItem(log[|log| - 1])
  }

  /** The thread that claimed each ticket. */
  function Claimers<T>(log: seq<Event<T>>): seq<nat> {
    if log == [] then []
    else
      var e := log[|log| - 1];
      Claimers(log[..|log| - 1]) + (if e.Claimed? then [e.p] else [])
  }

  /** The items enqueued with result true, in the order the calls returned. */
  function AcceptedItems<T>(log: seq<Event<T>>): seq<T> {
    if log == [] then [] else AcceptedItems(log[..|log| - 1]) + AcceptedItem(log[|log| - 1])
  }

  /** ... by thread r. */
  function AcceptedFrom<T>(log: seq<Event<T>>, r: nat): seq<T> {
    if log == [] then []
    else
      var e := log[|log| - 1];
      AcceptedFrom(log[..|log| - 1], r) + (if e.EnqueueReturned? && e.p == r then AcceptedItem(e) else [])
  }

  function Range(n: nat): (r: seq<nat>)
    ensures |r| == n && forall i :: 0 <= i < n ==> r[i] == i
  {
    seq(n, i => i)
  }

  // The histories of a log that grows by one event.

  lemma TicketsGrow<T>(log: seq<Event<T>>, e: Event<T>)
    ensures DeliveredTickets(log + [e]) == DeliveredTickets(log) + ReturnedTicket(e)
  {
    assert (log + [e])[..|log + [e]| - 1] == log;
  }

  lemma ItemsGrow<T>(log: seq<Event<T>>, e: Event<T>)
    ensures DeliveredItems(log + [e]) == DeliveredItems(log) + ReturnedItem(e)
  {
    assert (log + [e])[..|log + [e]| - 1] == log;
  }

  lemma AcceptedGrow<T>(log: seq<Event<T>>, e: Event<T>)
    ensures AcceptedItems(log + [e]) == AcceptedItems(log) + AcceptedItem(e)
  {
    assert (log + [e])[..|log + [e]| - 1] == log;
  }

  lemma ClaimsGrow<T>(log: seq<Event<T>>, e: Event<T>)
    ensures Claims(log + [e]) == Claims(log) + NewClaim(e)
  {
    assert (log + [e])[..|log + [e]| - 1] == log;
  }

  lemma LogGrowsFrom<T>(log: seq<Event<T>>, e: Event<T>, r: nat)
    ensures AcceptedFrom(log + [e], r) == AcceptedFrom(log, r) + (if e.EnqueueReturned? && e.p == r then AcceptedItem(e) else [])
    ensures Claimers(log + [e]) == Claimers(log) + (if e.Claimed? then [e.p] else [])
  {
    assert (log + [e])[..|log + [e]| - 1] == log;
  }

  // ---- Sums over threads ----

  ghost function Total<A>(parts: seq<multiset<A>>): multiset<A> {
    if parts == [] then multiset{} else Total(parts[..|parts| - 1]) + parts[|parts| - 1]
  }

  lemma {:induction false} TotalUpdate<A>(parts: seq<multiset<A>>, p: nat, x: multiset<A>)
    requires p < |parts|
    ensures Total(parts[p := x]) + parts[p] == Total(parts) + x
  {
    var n := |parts| - 1;
    if p == n {
      assert parts[p := x][..n] == parts[..n];
    } else {
      TotalUpdate(parts[..n], p, x);
      assert parts[p := x][..n] == parts[..n][p := x];
      AddToBoth(Total(parts[..n][p := x]), parts[p], Total(parts[..n]), x, parts[n]);
    }
  }

  lemma AddToBoth<A>(a: multiset<A>, b: multiset<A>, c: multiset<A>, d: multiset<A>, e: multiset<A>)
    requires a + b == c + d
    ensures (a + e) + b == (c + e) + d
  {
    assert (a + e) + b == (a + b) + e;
    assert (c + e) + d == (c + d) + e;
  }

  lemma Cancel<A>(a: multiset<A>, b: multiset<A>, c: multiset<A>)
    requires a + c == b + c
    ensures a == b
  {
    assert a == (a + c) - c;
    assert b == (b + c) - c;
  }

  lemma {:induction false} TotalEmpty<A>(parts: seq<multiset<A>>)
    requires forall i :: 0 <= i < |parts| ==> parts[i] == multiset{}
    ensures Total(parts) == multiset{}
  {
    if parts != [] {
      TotalEmpty(parts[..|parts| - 1]);
    }
  }

  function TakenBy<T>(pc: Pc<T>): seq<nat> {
    if pc.DequeueRead? || pc.DequeueStore? then [pc.pos] else []
  }

  function PendingIn<T>(pc: Pc<T>): seq<T> {
    if pc.EnqueueWrite? || pc.EnqueueStore? then [pc.item] else []
  }

  ghost function TicketParts<T>(threads: seq<Pc<T>>): (parts: seq<multiset<nat>>)
    ensures |parts| == |threads|
    ensures forall i :: 0 <= i < |threads| ==> parts[i] == multiset(TakenBy(threads[i]))
  {
    seq(|threads|, i requires 0 <= i < |threads| => multiset(TakenBy(threads[i])))
  }

  ghost function ItemParts<T>(threads: seq<Pc<T>>): (parts: seq<multiset<T>>)
    ensures |parts| == |threads|
    ensures forall i :: 0 <= i < |threads| ==> parts[i] == multiset(PendingIn(threads[i]))
  {
    seq(|threads|, i requires 0 <= i < |threads| => multiset(PendingIn(threads[i])))
  }

  /** Tickets that consumers have taken and not yet returned. */
  ghost function InHand<T>(threads: seq<Pc<T>>): multiset<nat> {
    Total(TicketParts(threads))
  }

  /** Items that producers have claimed a ticket for and not yet returned. */
  ghost function InProgress<T>(threads: seq<Pc<T>>): multiset<T> {
    Total(ItemParts(threads))
  }

  lemma InHandUpdate<T>(threads: seq<Pc<T>>, p: nat, pc: Pc<T>)
    requires p < |threads|
    ensures InHand(threads[p := pc]) + multiset(TakenBy(threads[p])) == InHand(threads) + multiset(TakenBy(pc))
  {
    TotalUpdate(TicketParts(threads), p, multiset(TakenBy(pc)));
    assert TicketParts(threads[p := pc]) == TicketParts(threads)[p := multiset(TakenBy(pc))];
  }

  lemma InProgressUpdate<T>(threads: seq<Pc<T>>, p: nat, pc: Pc<T>)
    requires p < |threads|
    ensures InProgress(threads[p := pc]) + multiset(PendingIn(threads[p])) == InProgress(threads) + multiset(PendingIn(pc))
  {
    TotalUpdate(ItemParts(threads), p, multiset(PendingIn(pc)));
    assert ItemParts(threads[p := pc]) == ItemParts(threads)[p := multiset(PendingIn(pc))];
  }

  lemma NothingInHand<T>(threads: seq<Pc<T>>)
    ensures (forall r :: 0 <= r < |threads| ==> !InDequeue(threads[r])) ==> InHand(threads) == multiset{}
    ensures (forall r :: 0 <= r < |threads| ==> !InEnqueue(threads[r])) ==> InProgress(threads) == multiset{}
  {
    if forall r :: 0 <= r < |threads| ==> !InDequeue(threads[r]) {
      TotalEmpty(TicketParts(threads));
    }
    if forall r :: 0 <= r < |threads| ==> !InEnqueue(threads[r]) {
      TotalEmpty(ItemParts(threads));
    }
  }

  // ---- One step ----

  /** What a step of thread p that emits e does to that thread, pc becoming pc'. */
  ghost predicate Shows<T>(items: seq<T>, tail: nat, e: Event<T>, p: nat, pc: Pc<T>, pc': Pc<T>) {
    && ReturnedTicket(e) + TakenBy(pc') == TakenBy(pc) + TakenNow(e, tail)
    && AcceptedItem(e) + PendingIn(pc') == PendingIn(pc) + NewClaim(e)
    && (e.DequeueReturned? ==> e.ticket < |items| && e.item == items[e.ticket])
    && (e.DequeueReturned? || e.Taken? ==> InDequeue(pc))
    && (e.Claimed? || e.EnqueueReturned? ==> e.p == p)
    && (InDequeue(pc') ==> InDequeue(pc) || e == DequeueCalled(p))
  }

  ghost predicate StepsTo<T>(q: Queue<T>, items: seq<T>, e: Event<T>, q': Queue<T>, p: nat) {
    && p < |q.threads| == |q'.threads|
    && q'.threads == q.threads[p := q'.threads[p]]
    && q'.tail == q.tail + |TakenNow(e, q.tail)|
    && Shows(items, q.tail, e, p, q.threads[p], q'.threads[p])
  }

  ghost predicate Stutters<T>(q: Queue<T>, e: Event<T>, q': Queue<T>) {
    q' == q && e == Silent
  }

  lemma EnqueueShows<T>(cap: Capacity, q: Queue<T>, items: seq<T>, p: nat, spurious: bool)
    requires Inv(cap, q, items) && p < |q.threads| && InEnqueue(q.threads[p])
    ensures var (q', e) := EnqueueStep(cap, q, p, spurious); StepsTo(q, items, e, q', p)
  {
  }

  lemma DequeueShows<T>(cap: Capacity, q: Queue<T>, items: seq<T>, p: nat, spurious: bool)
    requires Inv(cap, q, items) && p < |q.threads| && InDequeue(q.threads[p])
    ensures var (q', e) := DequeueStep(cap, q, p, spurious); StepsTo(q, items, e, q', p)
  {
    assert ThreadOk(cap, q, items, q.threads[p]);
  }

  /** A call of an idle thread, or the second load of size(). */
  lemma OtherShows<T>(cap: Capacity, q: Queue<T>, items: seq<T>, p: nat, a: Action<T>)
    requires Inv(cap, q, items) && p < |q.threads| && !InEnqueue(q.threads[p]) && !InDequeue(q.threads[p])
    ensures var (q', e) := Step(cap, q, p, a);
            (Stutters(q, e, q') || StepsTo(q, items, e, q', p)) && (e.DequeueCalled? ==> a.CallDequeue?)
  {
  }

  lemma StepShows<T>(cap: Capacity, q: Queue<T>, items: seq<T>, p: nat, a: Action<T>)
    requires Inv(cap, q, items)
    ensures var (q', e) := Step(cap, q, p, a);
            (Stutters(q, e, q') || StepsTo(q, items, e, q', p)) && (e.DequeueCalled? ==> a.CallDequeue?)
  {
    if p < |q.threads| {
      if InEnqueue(q.threads[p]) {
        EnqueueShows(cap, q, items, p, a.SpuriousFailure?);
      } else if InDequeue(q.threads[p]) {
        DequeueShows(cap, q, items, p, a.SpuriousFailure?);
      } else {
        OtherShows(cap, q, items, p, a);
      }
    }
  }

  /** How a step moves tickets from the queue to consumers' hands to the log ... */
  ghost predicate MovesTickets<T>(q: Queue<T>, e: Event<T>, q': Queue<T>) {
    && q'.tail == q.tail + |TakenNow(e, q.tail)|
    && InHand(q'.threads) + multiset(ReturnedTicket(e)) == InHand(q.threads) + multiset(TakenNow(e, q.tail))
  }

  /** ... and items from producers' hands to the log. */
  ghost predicate MovesItems<T>(q: Queue<T>, e: Event<T>, q': Queue<T>) {
    InProgress(q'.threads) + multiset(AcceptedItem(e)) == InProgress(q.threads) + multiset(NewClaim(e))
  }

  ghost predicate OwnItem<T>(items: seq<T>, e: Event<T>) {
    e.DequeueReturned? ==> e.ticket < |items| && e.item == items[e.ticket]
  }

  lemma Balance<A>(now: multiset<A>, before: multiset<A>, mine': multiset<A>, mine: multiset<A>, out: multiset<A>, into: multiset<A>)
    requires now + mine == before + mine' && mine' + out == mine + into
    ensures now + out == before + into
  {
    assert (now + out) + mine == (now + mine) + out;
    assert (before + mine') + out == before + (mine' + out);
    assert before + (mine + into) == (before + into) + mine;
    Cancel(now + out, before + into, mine);
  }

  lemma Regroup<A>(total: multiset<A>, done: multiset<A>, held: multiset<A>, held': multiset<A>, out: multiset<A>, into: multiset<A>)
    requires total == done + held && held' + out == held + into
    ensures total + into == (done + out) + held'
  {
    assert (done + out) + held' == done + (held' + out);
    assert done + (held + into) == (done + held) + into;
  }

  lemma FlipSums<A>(out: seq<A>, mine': seq<A>, mine: seq<A>, into: seq<A>)
    requires out + mine' == mine + into
    ensures multiset(mine') + multiset(out) == multiset(mine) + multiset(into)
  {
    assert multiset(out + mine') == multiset(out) + multiset(mine');
    assert multiset(mine + into) == multiset(mine) + multiset(into);
  }

  lemma StepsToMoves<T>(q: Queue<T>, items: seq<T>, e: Event<T>, q': Queue<T>, p: nat)
    requires StepsTo(q, items, e, q', p)
    ensures MovesTickets(q, e, q') && MovesItems(q, e, q')
  {
    var pc, pc' := q.threads[p], q'.threads[p];
    InHandUpdate(q.threads, p, pc');
    InProgressUpdate(q.threads, p, pc');
    FlipSums(ReturnedTicket(e), TakenBy(pc'), TakenBy(pc), TakenNow(e, q.tail));
    FlipSums(AcceptedItem(e), PendingIn(pc'), PendingIn(pc), NewClaim(e));
    Balance(InHand(q'.threads), InHand(q.threads), multiset(TakenBy(pc')), multiset(TakenBy(pc)), multiset(ReturnedTicket(e)), multiset(TakenNow(e, q.tail)));
    Balance(InProgress(q'.threads), InProgress(q.threads), multiset(PendingIn(pc')), multiset(PendingIn(pc)), multiset(AcceptedItem(e)), multiset(NewClaim(e)));
  }

  lemma TailGrows<T>(tail: nat, e: Event<T>)
    ensures Range(tail + |TakenNow(e, tail)|) == Range(tail) + TakenNow(e, tail)
  {
    assert Range(tail + 1) == Range(tail) + [tail];
    assert Range(tail) == Range(tail) + [];
  }

  // ---- Whole runs ----

  /** The last step of a run and what preceded it. */
  lemma LastStep<T>(cap: Capacity, q: Queue<T>, s: Schedule<T>) returns (before: Outcome<T>, e: Event<T>)
    requires cap >= 2 && Initial(cap, q) && s != []
    ensures before == Exec(cap, q, s[..|s| - 1])
    ensures Inv(cap, before.queue, Claims(before.log))
    ensures Exec(cap, q, s).log == before.log + [e]
    ensures Stutters(before.queue, e, Exec(cap, q, s).queue) || StepsTo(before.queue, Claims(before.log), e, Exec(cap, q, s).queue, s[|s| - 1].0)
    ensures e.DequeueCalled? ==> s[|s| - 1].1.CallDequeue?
  {
    RunInv(cap, q, s[..|s| - 1]);
    before := Exec(cap, q, s[..|s| - 1]);
    var (p, a) := s[|s| - 1];
    StepShows(cap, before.queue, Claims(before.log), p, a);
    e := Step(cap, before.queue, p, a).1;
  }

  lemma LastMoves<T>(q: Queue<T>, items: seq<T>, e: Event<T>, q': Queue<T>, p: nat)
    requires Stutters(q, e, q') || StepsTo(q, items, e, q', p)
    ensures MovesTickets(q, e, q') && MovesItems(q, e, q') && OwnItem(items, e)
  {
    if !Stutters(q, e, q') {
      StepsToMoves(q, items, e, q', p);
    }
  }

  ghost predicate EachTicketOnce<T>(log: seq<Event<T>>, q: Queue<T>) {
    multiset(DeliveredTickets(log)) + InHand(q.threads) == multiset(Range(q.tail))
  }

  lemma MoveOn<A>(done: seq<A>, out: seq<A>, total: seq<A>, into: seq<A>, held: multiset<A>, held': multiset<A>)
    requires multiset(done) + held == multiset(total) && held' + multiset(out) == held + multiset(into)
    ensures multiset(done + out) + held' == multiset(total + into)
  {
    Regroup(multiset(total), multiset(done), held, held', multiset(out), multiset(into));
    assert multiset(done + out) == multiset(done) + multiset(out);
    assert multiset(total + into) == multiset(total) + multiset(into);
  }

  lemma EachTicketOnceStep<T>(d: seq<nat>, q: Queue<T>, e: Event<T>, q': Queue<T>)
    requires multiset(d) + InHand(q.threads) == multiset(Range(q.tail)) && MovesTickets(q, e, q')
    ensures multiset(d + ReturnedTicket(e)) + InHand(q'.threads) == multiset(Range(q'.tail))
  {
    TailGrows(q.tail, e);
    MoveOn(d, ReturnedTicket(e), Range(q.tail), TakenNow(e, q.tail), InHand(q.threads), InHand(q'.threads));
  }

  /** Every ticket below tail_ was delivered once or is in exactly one consumer's hands. */
  lemma {:induction false} ExactlyOnce<T>(cap: Capacity, q: Queue<T>, s: Schedule<T>)
    requires cap >= 2 && Initial(cap, q)
    ensures EachTicketOnce(Exec(cap, q, s).log, Exec(cap, q, s).queue)
  {
    if s == [] {
      NothingInHand(q.threads);
    } else {
      ExactlyOnce(cap, q, s[..|s| - 1]);
      var before, e := LastStep(cap, q, s);
      LastMoves(before.queue, Claims(before.log), e, Exec(cap, q, s).queue, s[|s| - 1].0);
      TicketsGrow(before.log, e);
      EachTicketOnceStep(DeliveredTickets(before.log), before.queue, e, Exec(cap, q, s).queue);
    }
  }

  ghost predicate OwnItems<T>(log: seq<Event<T>>) {
    && |DeliveredItems(log)| == |DeliveredTickets(log)|
    && forall i :: 0 <= i < |DeliveredTickets(log)| ==>
         DeliveredTickets(log)[i] < |Claims(log)| && DeliveredItems(log)[i] == Claims(log)[DeliveredTickets(log)[i]]
  }

  lemma OwnItemsStep<T>(log: seq<Event<T>>, e: Event<T>)
    requires OwnItems(log) && OwnItem(Claims(log), e)
    ensures OwnItems(log + [e])
  {
    TicketsGrow(log, e);
    ItemsGrow(log, e);
    ClaimsGrow(log, e);
  }

  /** Every delivered item is the item of its ticket. */
  lemma {:induction false} DeliveredItemOfTicket<T>(cap: Capacity, q: Queue<T>, s: Schedule<T>)
    requires cap >= 2 && Initial(cap, q)
    ensures OwnItems(Exec(cap, q, s).log)
  {
    if s != [] {
      DeliveredItemOfTicket(cap, q, s[..|s| - 1]);
      var before, e := LastStep(cap, q, s);
      LastMoves(before.queue, Claims(before.log), e, Exec(cap, q, s).queue, s[|s| - 1].0);
      OwnItemsStep(before.log, e);
    }
  }

  ghost predicate ClaimedOrAccepted<T>(log: seq<Event<T>>, q: Queue<T>) {
    multiset(Claims(log)) == multiset(AcceptedItems(log)) + InProgress(q.threads)
  }

  lemma ClaimedOrAcceptedStep<T>(log: seq<Event<T>>, q: Queue<T>, e: Event<T>, q': Queue<T>)
    requires ClaimedOrAccepted(log, q) && MovesItems(q, e, q')
    ensures ClaimedOrAccepted(log + [e], q')
  {
    AcceptedGrow(log, e);
    ClaimsGrow(log, e);
    MoveOn(AcceptedItems(log), AcceptedItem(e), Claims(log), NewClaim(e), InProgress(q.threads), InProgress(q'.threads));
  }

  /** The items accepted so far and those of calls still in progress are exactly the claimed items. */
  lemma {:induction false} AcceptedAreClaimed<T>(cap: Capacity, q: Queue<T>, s: Schedule<T>)
    requires cap >= 2 && Initial(cap, q)
    ensures ClaimedOrAccepted(Exec(cap, q, s).log, Exec(cap, q, s).queue)
  {
    if s == [] {
      NothingInHand(q.threads);
    } else {
      AcceptedAreClaimed(cap, q, s[..|s| - 1]);
      var before, e := LastStep(cap, q, s);
      LastMoves(before.queue, Claims(before.log), e, Exec(cap, q, s).queue, s[|s| - 1].0);
      ClaimedOrAcceptedStep(before.log, before.queue, e, Exec(cap, q, s).queue);
    }
  }

  // ---- Conservation of items ----

  ghost function ItemsOf<T>(items: seq<T>, tickets: multiset<nat>): multiset<T>
    requires forall t :: t in tickets ==> t < |items|
  {
    if |items| == 0 then multiset{}
    else
      var n := |items| - 1;
      var rest := tickets[n := 0];
      ItemsOf(items[..n], rest) + Copies(items[n], tickets[n])
  }

  ghost function Copies<T>(x: T, n: nat): multiset<T> {
    multiset{}[x := n]
  }

  lemma {:induction false} ItemsOfSum<T>(items: seq<T>, a: multiset<nat>, b: multiset<nat>)
    requires forall t :: t in a || t in b ==> t < |items|
    ensures ItemsOf(items, a + b) == ItemsOf(items, a) + ItemsOf(items, b)
  {
    if |items| > 0 {
      var n := |items| - 1;
      ItemsOfSum(items[..n], a[n := 0], b[n := 0]);
      assert (a + b)[n := 0] == a[n := 0] + b[n := 0];
    }
  }

  lemma {:induction false} ItemsOfNone<T>(items: seq<T>)
    ensures ItemsOf(items, multiset{}) == multiset{}
  {
    if |items| > 0 {
      ItemsOfNone(items[..|items| - 1]);
      assert multiset{}[|items| - 1 := 0] == multiset{};
    }
  }

  lemma {:induction false} ItemsOfOne<T>(items: seq<T>, t: nat)
    requires t < |items|
    ensures ItemsOf(items, multiset{t}) == multiset{items[t]}
  {
    var n := |items| - 1;
    if t == n {
      assert multiset{t}[n := 0] == multiset{};
      ItemsOfNone(items[..n]);
    } else {
      assert multiset{t}[n := 0] == multiset{t};
      ItemsOfOne(items[..n], t);
    }
  }

  lemma {:induction false} ItemsOfSeq<T>(items: seq<T>, tickets: seq<nat>, values: seq<T>)
    requires |tickets| == |values|
    requires forall i :: 0 <= i < |tickets| ==> tickets[i] < |items| && values[i] == items[tickets[i]]
    ensures ItemsOf(items, multiset(tickets)) == multiset(values)
  {
    if tickets == [] {
      ItemsOfNone(items);
    } else {
      var n := |tickets| - 1;
      ItemsOfSeq(items, tickets[..n], values[..n]);
      assert tickets == tickets[..n] + [tickets[n]] && values == values[..n] + [values[n]];
      ItemsOfOne(items, tickets[n]);
      ItemsOfSum(items, multiset(tickets[..n]), multiset{tickets[n]});
    }
  }

  lemma InHandBelow(delivered: multiset<nat>, held: multiset<nat>, n: nat)
    requires delivered + held == multiset(Range(n))
    ensures forall t :: t in held ==> t < n
  {
    forall t | t in held ensures t < n {
      assert t in multiset(Range(n));
    }
  }

  ghost predicate Conserved<T>(log: seq<Event<T>>, q: Queue<T>) {
    var items := Claims(log);
    && (forall t :: t in InHand(q.threads) ==> t < |items|)
    && q.tail <= |items|
    && multiset(items) == multiset(DeliveredItems(log)) + ItemsOf(items, InHand(q.threads)) + multiset(items[q.tail..])
  }

  lemma TicketsToItems<T>(items: seq<T>, n: nat, delivered: seq<nat>, values: seq<T>, held: multiset<nat>)
    requires n <= |items| && |delivered| == |values|
    requires forall i :: 0 <= i < |delivered| ==> delivered[i] < |items| && values[i] == items[delivered[i]]
    requires multiset(delivered) + held == multiset(Range(n))
    ensures forall t :: t in held ==> t < |items|
    ensures multiset(items) == multiset(values) + ItemsOf(items, held) + multiset(items[n..])
  {
    InHandBelow(multiset(delivered), held, n);
    assert multiset(items[..n]) == multiset(values) + ItemsOf(items, held) by {
      ItemsOfSeq(items, delivered, values);
      ItemsOfSum(items, multiset(delivered), held);
      ItemsOfSeq(items, Range(n), items[..n]);
    }
    SplitMultiset(items, n);
  }

  lemma SplitMultiset<A>(s: seq<A>, n: nat)
    requires n <= |s|
    ensures multiset(s) == multiset(s[..n]) + multiset(s[n..])
  {
    assert s == s[..n] + s[n..];
  }

  /** No item is lost, duplicated or invented: enqueued = delivered + in consumers' hands + still queued. */
  lemma Conservation<T>(cap: Capacity, q: Queue<T>, s: Schedule<T>)
    requires cap >= 2 && Initial(cap, q)
    ensures Conserved(Exec(cap, q, s).log, Exec(cap, q, s).queue)
  {
    RunInv(cap, q, s);
    ExactlyOnce(cap, q, s);
    DeliveredItemOfTicket(cap, q, s);
    var r := Exec(cap, q, s);
    TicketsToItems(Claims(r.log), r.queue.tail, DeliveredTickets(r.log), DeliveredItems(r.log), InHand(r.queue.threads));
  }

  // ---- Order ----

  ghost predicate OnlyDequeuer<T>(s: Schedule<T>, p: nat) {
    forall k :: 0 <= k < |s| && s[k].1.CallDequeue? ==> s[k].0 == p
  }

  /** Only p dequeues, and d followed by the ticket in p's hands counts up to the tail. */
  ghost predicate SoleInOrder<T>(d: seq<nat>, q: Queue<T>, p: nat) {
    && (forall o :: 0 <= o < |q.threads| && o != p ==> !InDequeue(q.threads[o]))
    && d + (if p < |q.threads| then TakenBy(q.threads[p]) else []) == Range(q.tail)
  }

  lemma SoleInOrderStep<T>(d: seq<nat>, q: Queue<T>, items: seq<T>, e: Event<T>, q': Queue<T>, o: nat, p: nat)
    requires SoleInOrder(d, q, p) && StepsTo(q, items, e, q', o) && (e.DequeueCalled? ==> o == p)
    ensures SoleInOrder(d + ReturnedTicket(e), q', p)
  {
    TailGrows(q.tail, e);
    if o == p {
      Reassociate(d, ReturnedTicket(e), TakenBy(q'.threads[p]), TakenBy(q.threads[p]), TakenNow(e, q.tail));
    } else {
      OtherStep(q, items, e, q', o, p);
      assert d + [] == d && Range(q.tail) + [] == Range(q.tail);
    }
  }

  lemma OtherStep<T>(q: Queue<T>, items: seq<T>, e: Event<T>, q': Queue<T>, o: nat, p: nat)
    requires StepsTo(q, items, e, q', o) && o != p && !InDequeue(q.threads[o]) && !e.DequeueCalled?
    ensures TakenNow(e, q.tail) == [] && ReturnedTicket(e) == [] && !InDequeue(q'.threads[o]) && q'.tail == q.tail
  {
  }

  lemma Reassociate<A>(done: seq<A>, out: seq<A>, mine': seq<A>, mine: seq<A>, into: seq<A>)
    requires out + mine' == mine + into
    ensures (done + out) + mine' == (done + mine) + into
  {
    assert (done + out) + mine' == done + (out + mine');
    assert (done + mine) + into == done + (mine + into);
  }

  /** A sole consumer receives the tickets in order, without gaps. */
  lemma {:induction false} SoleConsumerInOrder<T>(cap: Capacity, q: Queue<T>, s: Schedule<T>, p: nat)
    requires cap >= 2 && Initial(cap, q) && OnlyDequeuer(s, p)
    ensures SoleInOrder(DeliveredTickets(Exec(cap, q, s).log), Exec(cap, q, s).queue, p)
  {
    if s != [] {
      SoleConsumerInOrder(cap, q, s[..|s| - 1], p);
      var before, e := LastStep(cap, q, s);
      TicketsGrow(before.log, e);
      var d := DeliveredTickets(before.log);
      if Stutters(before.queue, e, Exec(cap, q, s).queue) {
        assert d + [] == d;
      } else {
        SoleInOrderStep(d, before.queue, Claims(before.log), e, Exec(cap, q, s).queue, s[|s| - 1].0, p);
      }
    }
  }

  /** ... so what it received is a prefix of the claimed items, short of tail_ by the ticket in its hands. */
  lemma SoleConsumerPrefix<T>(cap: Capacity, q: Queue<T>, s: Schedule<T>, p: nat)
    requires cap >= 2 && Initial(cap, q) && OnlyDequeuer(s, p) && p < |q.threads|
    ensures var r := Exec(cap, q, s); var got := DeliveredItems(r.log);
            && |got| + |TakenBy(r.queue.threads[p])| == r.queue.tail <= |Claims(r.log)|
            && got == Claims(r.log)[..|got|]
  {
    SoleConsumerInOrder(cap, q, s, p);
    DeliveredItemOfTicket(cap, q, s);
    RunInv(cap, q, s);
    var r := Exec(cap, q, s);
    PrefixFromOrder(r.log, r.queue.tail, TakenBy(r.queue.threads[p]));
  }

  lemma PrefixFromOrder<T>(log: seq<Event<T>>, n: nat, held: seq<nat>)
    requires OwnItems(log) && DeliveredTickets(log) + held == Range(n)
    ensures var got := DeliveredItems(log);
            |got| + |held| == n && |got| <= |Claims(log)| && got == Claims(log)[..|got|]
  {
    var d := DeliveredTickets(log);
    assert |d + held| == |Range(n)|;
    assert forall i :: 0 <= i < |d| ==> d[i] == (d + held)[i] == i;
    if |d| > 0 {
      assert d[|d| - 1] < |Claims(log)|;
    }
  }

  /** The items of those of the given tickets that thread r claimed. */
  function From<T>(claimers: seq<nat>, items: seq<T>, r: nat): seq<T>
    requires |claimers| == |items|
  {
    if items == [] then []
    else
      var n := |items| - 1;
      From(claimers[..n], items[..n], r) + (if claimers[n] == r then [items[n]] else [])
  }

  lemma {:induction false} FromPrefix<T>(claimers: seq<nat>, items: seq<T>, r: nat, k: nat)
    requires |claimers| == |items| && k <= |items|
    ensures From(claimers[..k], items[..k], r) <= From(claimers, items, r)
    decreases |items|
  {
    if k == |items| {
      assert claimers[..k] == claimers && items[..k] == items;
    } else {
      var n := |items| - 1;
      FromPrefix(claimers[..n], items[..n], r, k);
      assert claimers[..n][..k] == claimers[..k] && items[..n][..k] == items[..k];
    }
  }

  ghost predicate InProgramOrder<T>(log: seq<Event<T>>, q: Queue<T>, r: nat) {
    && |Claimers(log)| == |Claims(log)|
    && From(Claimers(log), Claims(log), r) == AcceptedFrom(log, r) + (if r < |q.threads| then PendingIn(q.threads[r]) else [])
  }

  lemma FromGrows<T>(claimers: seq<nat>, items: seq<T>, e: Event<T>, r: nat)
    requires |claimers| == |items|
    ensures From(claimers + (if e.Claimed? then [e.p] else []), items + NewClaim(e), r)
            == From(claimers, items, r) + (if e.Claimed? && e.p == r then NewClaim(e) else [])
  {
    if e.Claimed? {
      assert (claimers + [e.p])[..|items|] == claimers && (items + [e.item])[..|items|] == items;
    } else {
      assert claimers + [] == claimers && items + [] == items;
    }
  }

  lemma InProgramOrderStep<T>(log: seq<Event<T>>, q: Queue<T>, items: seq<T>, e: Event<T>, q': Queue<T>, o: nat, r: nat)
    requires InProgramOrder(log, q, r) && (Stutters(q, e, q') || StepsTo(q, items, e, q', o))
    ensures InProgramOrder(log + [e], q', r)
  {
    ClaimsGrow(log, e);
    LogGrowsFrom(log, e, r);
    FromGrows(Claimers(log), Claims(log), e, r);
    var acc, mine := AcceptedFrom(log, r), From(Claimers(log), Claims(log), r);
    assert acc + [] == acc && mine + [] == mine;
    if !Stutters(q, e, q') && o == r {
      Reassociate(acc, AcceptedItem(e), PendingIn(q'.threads[r]), PendingIn(q.threads[r]), NewClaim(e));
    }
  }

  /** Tickets keep each producer's program order: what r claimed is what its calls returned true for, then the call in progress. */
  lemma {:induction false} ProgramOrder<T>(cap: Capacity, q: Queue<T>, s: Schedule<T>, r: nat)
    requires cap >= 2 && Initial(cap, q)
    ensures InProgramOrder(Exec(cap, q, s).log, Exec(cap, q, s).queue, r)
  {
    if s != [] {
      ProgramOrder(cap, q, s[..|s| - 1], r);
      var before, e := LastStep(cap, q, s);
      InProgramOrderStep(before.log, before.queue, Claims(before.log), e, Exec(cap, q, s).queue, s[|s| - 1].0, r);
    }
  }

  /** A sole consumer sees each producer's accepted items in the order that producer enqueued them. */
  lemma ProducerOrderKept<T>(cap: Capacity, q: Queue<T>, s: Schedule<T>, p: nat, r: nat)
    requires cap >= 2 && Initial(cap, q) && OnlyDequeuer(s, p) && p < |q.threads| && r < |q.threads|
    ensures var x := Exec(cap, q, s); var got := DeliveredItems(x.log);
            && |got| <= |Claimers(x.log)|
            && From(Claimers(x.log)[..|got|], got, r) <= AcceptedFrom(x.log, r) + PendingIn(x.queue.threads[r])
  {
    SoleConsumerPrefix(cap, q, s, p);
    ProgramOrder(cap, q, s, r);
    var x := Exec(cap, q, s);
    FromPrefix(Claimers(x.log), Claims(x.log), r, |DeliveredItems(x.log)|);
  }

  // ---- Accepted tickets ----

  /** A thread between its claim and its publication holds the last ticket it claimed. */
  ghost predicate HoldsLastClaim<T>(log: seq<Event<T>>, pc: Pc<T>, p: nat) {
    forall t: nat :: ProducerHolds(pc, t) ==>
      t < |Claimers(log)| && Claimers(log)[t] == p && forall u :: t < u < |Claimers(log)| ==> Claimers(log)[u] != p
  }

  /** A step of thread o: it comes to hold a ticket only by claiming it. */
  ghost predicate HoldsByClaim<T>(q: Queue<T>, e: Event<T>, q': Queue<T>, o: nat) {
    && |q.threads| == |q'.threads|
    && (forall p :: 0 <= p < |q.threads| && p != o ==> q'.threads[p] == q.threads[p])
    && (e.Claimed? ==> e.p == o)
    && (o < |q.threads| ==> forall t: nat :: ProducerHolds(q'.threads[o], t) ==>
          if e.Claimed? then t == q.head else ProducerHolds(q.threads[o], t))
  }

  lemma EnqueueHolds<T>(cap: Capacity, q: Queue<T>, o: nat, spurious: bool)
    requires Shape(cap, q) && o < |q.threads| && InEnqueue(q.threads[o])
    ensures var (q', e) := EnqueueStep(cap, q, o, spurious); HoldsByClaim(q, e, q', o)
  {
  }

  lemma DequeueHolds<T>(cap: Capacity, q: Queue<T>, o: nat, spurious: bool)
    requires Shape(cap, q) && o < |q.threads| && InDequeue(q.threads[o])
    ensures var (q', e) := DequeueStep(cap, q, o, spurious); HoldsByClaim(q, e, q', o)
  {
  }

  lemma StepHolds<T>(cap: Capacity, q: Queue<T>, o: nat, a: Action<T>)
    requires Shape(cap, q)
    ensures var (q', e) := Step(cap, q, o, a); HoldsByClaim(q, e, q', o)
  {
    if o < |q.threads| {
      if InEnqueue(q.threads[o]) {
        EnqueueHolds(cap, q, o, a.SpuriousFailure?);
      } else if InDequeue(q.threads[o]) {
        DequeueHolds(cap, q, o, a.SpuriousFailure?);
      }
    }
  }

  lemma HoldsLastStep<T>(log: seq<Event<T>>, q: Queue<T>, e: Event<T>, q': Queue<T>, o: nat, p: nat)
    requires p < |q.threads| && HoldsByClaim(q, e, q', o) && HoldsLastClaim(log, q.threads[p], p) && |Claimers(log)| == q.head
    ensures HoldsLastClaim(log + [e], q'.threads[p], p)
  {
    LogGrowsFrom(log, e, p);
  }

  lemma {:induction false} HolderClaimedLast<T>(cap: Capacity, q: Queue<T>, s: Schedule<T>, p: nat)
    requires cap >= 2 && Initial(cap, q) && p < |q.threads|
    ensures HoldsLastClaim(Exec(cap, q, s).log, Exec(cap, q, s).queue.threads[p], p)
  {
    if s != [] {
      HolderClaimedLast(cap, q, s[..|s| - 1], p);
      ProgramOrder(cap, q, s[..|s| - 1], p);
      RunInv(cap, q, s[..|s| - 1]);
      var before := Exec(cap, q, s[..|s| - 1]);
      var (o, a) := s[|s| - 1];
      StepHolds(cap, before.queue, o, a);
      var (next, e) := Step(cap, before.queue, o, a);
      HoldsLastStep(before.log, before.queue, e, next, o, p);
    }
  }

  lemma {:induction false} FromNoMore<T>(claimers: seq<nat>, items: seq<T>, r: nat, k: nat)
    requires |claimers| == |items| && k <= |items| && forall u :: k <= u < |items| ==> claimers[u] != r
    ensures From(claimers, items, r) == From(claimers[..k], items[..k], r)
    decreases |items|
  {
    if k == |items| {
      assert claimers[..k] == claimers && items[..k] == items;
    } else {
      var n := |items| - 1;
      FromNoMore(claimers[..n], items[..n], r, k);
      assert claimers[..n][..k] == claimers[..k] && items[..n][..k] == items[..k];
    }
  }

  lemma FromBeforeLast<T>(claimers: seq<nat>, items: seq<T>, r: nat, t: nat, done: seq<T>, pending: T)
    requires |claimers| == |items| && t < |items| && claimers[t] == r && forall u :: t < u < |items| ==> claimers[u] != r
    requires From(claimers, items, r) == done + [pending]
    ensures From(claimers[..t], items[..t], r) == done
  {
    FromNoMore(claimers, items, r, t + 1);
    assert claimers[..t + 1][..t] == claimers[..t] && items[..t + 1][..t] == items[..t];
    assert From(claimers[..t], items[..t], r) + [items[t]] == done + [pending];
    assert (From(claimers[..t], items[..t], r) + [items[t]])[..|done|] == done;
  }

  /** A claimed ticket that no producer holds any more. */
  ghost predicate AcceptedTicket<T>(q: Queue<T>, u: nat) {
    u < q.head && forall p :: 0 <= p < |q.threads| ==> !ProducerHolds(q.threads[p], u)
  }

  /** The claimer's calls up to and including ticket u's are among those that returned true. */
  ghost predicate ReturnedUpTo<T>(log: seq<Event<T>>, u: nat) {
    && u < |Claims(log)| == |Claimers(log)|
    && From(Claimers(log)[..u + 1], Claims(log)[..u + 1], Claimers(log)[u]) <= AcceptedFrom(log, Claimers(log)[u])
  }

  lemma UpTo<T>(log: seq<Event<T>>, q: Queue<T>, u: nat)
    requires AcceptedTicket(q, u) && u < |Claimers(log)| && InProgramOrder(log, q, Claimers(log)[u])
    requires Claimers(log)[u] < |q.threads| ==> HoldsLastClaim(log, q.threads[Claimers(log)[u]], Claimers(log)[u])
    ensures ReturnedUpTo(log, u)
  {
    var r, claimers, items := Claimers(log)[u], Claimers(log), Claims(log);
    if r < |q.threads| && (q.threads[r].EnqueueWrite? || q.threads[r].EnqueueStore?) {
      var t := q.threads[r].pos;
      assert ProducerHolds(q.threads[r], t);
      FromBeforeLast(claimers, items, r, t, AcceptedFrom(log, r), q.threads[r].item);
      FromPrefix(claimers[..t], items[..t], r, u + 1);
      assert claimers[..t][..u + 1] == claimers[..u + 1] && items[..t][..u + 1] == items[..u + 1];
    } else {
      assert AcceptedFrom(log, r) + [] == AcceptedFrom(log, r);
      FromPrefix(claimers, items, r, u + 1);
    }
  }

  lemma NotYet<T>(log: seq<Event<T>>, q: Queue<T>, u: nat, p: nat)
    requires p < |q.threads| && ProducerHolds(q.threads[p], u)
    requires HoldsLastClaim(log, q.threads[p], p) && InProgramOrder(log, q, p)
    ensures !ReturnedUpTo(log, u)
  {
    FromNoMore(Claimers(log), Claims(log), p, u + 1);
    assert |From(Claimers(log), Claims(log), p)| == |AcceptedFrom(log, p)| + 1;
  }

  /** Accepted tickets are exactly those whose try_enqueue has returned true. */
  lemma AcceptedExactlyReturned<T>(cap: Capacity, q: Queue<T>, s: Schedule<T>, u: nat)
    requires cap >= 2 && Initial(cap, q) && u < Exec(cap, q, s).queue.head
    ensures AcceptedTicket(Exec(cap, q, s).queue, u) <==> ReturnedUpTo(Exec(cap, q, s).log, u)
  {
    var x := Exec(cap, q, s);
    RunInv(cap, q, s);
    ProgramOrder(cap, q, s, 0);
    if AcceptedTicket(x.queue, u) {
      var r := Claimers(x.log)[u];
      ProgramOrder(cap, q, s, r);
      if r < |q.threads| {
        HolderClaimedLast(cap, q, s, r);
      }
      UpTo(x.log, x.queue, u);
    } else {
      var p :| 0 <= p < |q.threads| && ProducerHolds(x.queue.threads[p], u);
      HolderClaimedLast(cap, q, s, p);
      ProgramOrder(cap, q, s, p);
      NotYet(x.log, x.queue, u, p);
    }
  }
}
