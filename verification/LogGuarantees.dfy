/** What the file holds during a session, and what stop() guarantees. */
module LogGuarantees {
  import opened Options
  import opened Bits
  import opened QueueProtocol
  import opened QueueInvariant
  import opened QueueSafety
  import opened QueueDelivery
  import opened ItchMessages
  import opened ItchCodec
  import opened LogFile
  import opened LogAccounting
  import opened LogSession

  /** The messages of the claimed tickets, in ticket order. */
  function Sent(s: System): seq<Message> {
    Messages(Claims(s.queue.log))
  }

  /** Where the records of ms are, for every device: in the mapping, or in the flushed chunks and the buffer. */
  ghost predicate FileHolds(c: Config, s: System, ms: seq<Message>) {
    var sink, cs := s.journal.sink, s.journal.chunks;
    if c.mode.Mmap? then sink.total <= |sink.file| && sink.file[..sink.total] == Stream(ms)
    else
      && ChunksOk(cs) && sink.offset <= |sink.buffer|
      && Payloads(cs) + sink.buffer[..sink.offset] == Stream(ms)
      && sink.file == OnDisk(cs)
      && |Stream(ms)| == sink.total + sink.offset + Dropped(cs)
      && (AlwaysComplete(c.device) ==> sink.file == Blocks(cs) && sink.total == |Payloads(cs)|)
      && (AlwaysComplete(c.device) && c.mode.Buffered? ==> sink.file == Payloads(cs))
  }

  lemma JournalFile(c: Config, s: System)
    requires JournalOk(c, s)
    ensures FileHolds(c, s, s.journal.messages)
  {
    if !c.mode.Mmap? {
      PayloadSum(s.journal.chunks);
      if AlwaysComplete(c.device) {
        CompleteDisk(s.journal.chunks);
      }
    }
  }

  lemma PrefixOfMessages(ms: seq<Message>, hands: seq<Message>, got: seq<ParsedMessage>, all: seq<ParsedMessage>)
    requires |got| <= |all| && got == all[..|got|] && ms + hands == Messages(got)
    ensures |ms| + |hands| == |got| && ms == Messages(all)[..|ms|]
  {
    assert |ms + hands| == |Messages(got)|;
    forall i | 0 <= i < |ms| ensures ms[i] == Messages(all)[i] {
      assert ms[i] == (ms + hands)[i] == Messages(got)[i];
    }
  }

  lemma PrefixOfSent(c: Config, start: Queue<ParsedMessage>, s: System)
    requires CoreInv(c, start, s)
    ensures var q := s.queue.queue; var k := |s.journal.messages|;
            && k + |InWorkersHands(s.worker)| + |TakenBy(q.threads[0])| == q.tail <= q.head == |Sent(s)|
            && s.journal.messages == Sent(s)[..k]
  {
    SoleConsumerPrefix(c.cap, start, s.trace, 0);
    RunInv(c.cap, start, s.trace);
    PrefixOfMessages(s.journal.messages, InWorkersHands(s.worker), DeliveredItems(s.queue.log), Claims(s.queue.log));
  }

  // ---- stop() with no log() call in flight ----

  /** No thread is inside log(). */
  ghost predicate Quiet(s: System) {
    forall p :: 0 <= p < |s.queue.queue.threads| ==> !InEnqueue(s.queue.queue.threads[p])
  }

  ghost predicate NoNewCalls(moves: seq<Move>) {
    forall k :: 0 <= k < |moves| ==> !StartsLog(moves[k])
  }

  predicate StartsLog(m: Move) {
    m.Client? && m.a.CallEnqueue?
  }

  /** Once stop() has begun with nobody logging, the worker can only finish on an empty queue. */
  ghost predicate WindingDown(s: System) {
    Quiet(s) && !s.running && (s.worker.Done? ==> s.queue.queue.head == s.queue.queue.tail)
  }

  /** A queue step of a thread that is not in log() and does not start it. */
  lemma QuietStep(cap: Capacity, q: Queue<ParsedMessage>, items: seq<ParsedMessage>, p: nat, a: Action<ParsedMessage>)
    requires cap >= 2 && Inv(cap, q, items) && !a.CallEnqueue?
    requires forall r :: 0 <= r < |q.threads| ==> !InEnqueue(q.threads[r])
    ensures var (q', e) := Step(cap, q, p, a);
            && (forall r :: 0 <= r < |q'.threads| ==> !InEnqueue(q'.threads[r]))
            && q'.head == q.head
            && (p < |q.threads| && !InDequeue(q.threads[p]) ==> q'.tail == q.tail)
            && (e.DequeueFailed? ==> q'.head == q'.tail)
  {
    var (q', e) := Step(cap, q, p, a);
    if p < |q.threads| {
      assert q'.threads == q.threads[p := q'.threads[p]];
      if e.DequeueFailed? {
        DequeueFailsExactly(cap, q, items, p);
      }
    }
  }

  /** ... in a session: the same of the whole system. */
  lemma QuietQueueStep(c: Config, start: Queue<ParsedMessage>, s: System, p: nat, a: Action<ParsedMessage>)
    requires CoreInv(c, start, s) && Quiet(s) && !a.CallEnqueue?
    ensures var r := QueueStep(c, s, p, a); var e := r.queue.log[|r.queue.log| - 1];
            && Quiet(r) && r.queue.queue.head == s.queue.queue.head
            && (p != 0 ==> r.queue.queue.tail == s.queue.queue.tail)
            && (e.DequeueFailed? ==> r.queue.queue.head == r.queue.queue.tail)
  {
    RunInv(c.cap, start, s.trace);
    SoleConsumerInOrder(c.cap, start, s.trace, 0);
    QuietStep(c.cap, s.queue.queue, Claims(s.queue.log), p, a);
  }

  lemma WindingDownCall(c: Config, start: Queue<ParsedMessage>, s: System)
    requires CoreInv(c, start, s) && WindingDown(s) && s.worker.Calling?
    ensures WindingDown(WorkerStep(c, s, false))
  {
    QuietQueueStep(c, start, s, 0, CallDequeue);
  }

  lemma WindingDownDequeue(c: Config, start: Queue<ParsedMessage>, s: System, spurious: bool)
    requires CoreInv(c, start, s) && WindingDown(s) && s.worker.Dequeuing?
    ensures WindingDown(WorkerStep(c, s, spurious))
  {
    QuietQueueStep(c, start, s, 0, if spurious then SpuriousFailure else Run);
  }

  lemma WindingDownWork(c: Config, start: Queue<ParsedMessage>, s: System, spurious: bool)
    requires CoreInv(c, start, s) && WindingDown(s)
    ensures WindingDown(WorkerStep(c, s, spurious))
  {
    if s.worker.Calling? {
      WindingDownCall(c, start, s);
    } else if s.worker.Dequeuing? {
      WindingDownDequeue(c, start, s, spurious);
    } else {
      WorkerLocal(c, s, spurious);
    }
  }

  lemma WindingDownStep(c: Config, start: Queue<ParsedMessage>, s: System, m: Move)
    requires CoreInv(c, start, s) && WindingDown(s) && !StartsLog(m)
    ensures WindingDown(Next(c, s, m))
  {
    match m
    case Client(p, a) =>
      if p != 0 && !a.CallDequeue? {
        QuietQueueStep(c, start, s, p, a);
      }
    case Work(spurious) => WindingDownWork(c, start, s, spurious);
    case Stop =>
  }

  lemma {:induction false} WindsDown(c: Config, start: Queue<ParsedMessage>, s: System, moves: seq<Move>)
    requires CoreInv(c, start, s) && WindingDown(s) && NoNewCalls(moves)
    ensures WindingDown(Go(c, s, moves))
  {
    if moves != [] {
      WindsDown(c, start, s, moves[..|moves| - 1]);
      GoKeeps(c, start, s, moves[..|moves| - 1]);
      WindingDownStep(c, start, Go(c, s, moves[..|moves| - 1]), moves[|moves| - 1]);
    }
  }

  lemma {:induction false} GoAppend(c: Config, s: System, m1: seq<Move>, m2: seq<Move>)
    requires Live(c, s)
    ensures Go(c, s, m1 + m2) == Go(c, Go(c, s, m1), m2)
    decreases |m2|
  {
    if m2 == [] {
      assert m1 + m2 == m1;
    } else {
      GoAppend(c, s, m1, m2[..|m2| - 1]);
      assert (m1 + m2)[..|m1 + m2| - 1] == m1 + m2[..|m2| - 1];
    }
  }

  /** Every claimed message has been written. */
  ghost predicate NothingLost(s: System) {
    s.journal.messages == Sent(s)
  }

  /** If nobody is inside log() when stop() begins and nobody calls it later, nothing is lost. */
  lemma OrderlyStop(c: Config, start: Queue<ParsedMessage>, s: System, after: seq<Move>)
    requires CoreInv(c, start, s) && s.stop.NotStopped? && Quiet(s) && NoNewCalls(after)
    requires Go(c, s, [Stop] + after).stop.Stopped?
    ensures NothingLost(Go(c, s, [Stop] + after))
  {
    GoAppend(c, s, [Stop], after);
    OneMove(c, s, Stop);
    var begun := Next(c, s, Stop);
    NextKeeps(c, start, s, Stop);
    WindsDown(c, start, begun, after);
    GoKeeps(c, start, begun, after);
    var end := Go(c, begun, after);
    PrefixOfSent(c, start, end);
    assert Sent(end)[..|Sent(end)|] == Sent(end);
  }

  lemma OneMove(c: Config, s: System, m: Move)
    requires Live(c, s)
    ensures Go(c, s, [m]) == Next(c, s, m)
  {
    assert [m][..0] == [];
    assert Go(c, s, []) == s;
  }

  /** The claimed messages are exactly those log() reported as accepted, and keep each caller's order. */
  ghost predicate AcceptedExactly(s: System) {
    && multiset(Claims(s.queue.log)) == multiset(AcceptedItems(s.queue.log))
    && |Claimers(s.queue.log)| == |Claims(s.queue.log)|
    && forall r :: 0 <= r < |s.queue.queue.threads| ==> From(Claimers(s.queue.log), Claims(s.queue.log), r) == AcceptedFrom(s.queue.log, r)
  }

  lemma QuietAccepted(c: Config, start: Queue<ParsedMessage>, s: System)
    requires CoreInv(c, start, s) && Quiet(s)
    ensures AcceptedExactly(s)
  {
    AcceptedAreClaimed(c.cap, start, s.trace);
    NothingInHand(s.queue.queue.threads);
    ProgramOrder(c.cap, start, s.trace, 0);
    forall r | 0 <= r < |s.queue.queue.threads|
      ensures From(Claimers(s.queue.log), Claims(s.queue.log), r) == AcceptedFrom(s.queue.log, r)
    {
      ProgramOrder(c.cap, start, s.trace, r);
      assert AcceptedFrom(s.queue.log, r) + [] == AcceptedFrom(s.queue.log, r);
    }
  }

  /** What the closed file is when the given messages were written, for every device. */
  ghost predicate FinalFile(c: Config, s: System, ms: seq<Message>) {
    var total, cs := s.journal.sink.total, s.journal.chunks;
    && s.stop.Stopped?
    && (if c.mode.Mmap? then s.stop.file == Stream(ms) && total == |s.stop.file|
        else
          && ChunksOk(cs) && Payloads(cs) == Stream(ms)
          && s.stop.file == OnDisk(cs)
          && |Stream(ms)| == total + Dropped(cs)
          && (c.mode.Buffered? ==> |s.stop.file| <= total)
          && (AlwaysComplete(c.device) ==> s.stop.file == Blocks(cs) && total == |Stream(ms)|)
          && (AlwaysComplete(c.device) && c.mode.Buffered? ==> s.stop.file == Stream(ms))
          && (AlwaysComplete(c.device) && c.mode.Direct? ==> |s.stop.file| % ALIGNMENT == 0))
  }

  lemma StoppedFile(c: Config, s: System)
    requires JournalOk(c, s) && s.stop.Stopped?
    ensures FinalFile(c, s, s.journal.messages)
  {
    JournalFile(c, s);
    var cs := s.journal.chunks;
    assert Payloads(cs) + [] == Payloads(cs);
    if c.mode.Direct? {
      BlocksAligned(cs);
    } else if c.mode.Buffered? {
      DiskLength(cs);
    }
  }

  /** Nothing went missing from the file, or into it: every BUFFERED write complete, no DIRECT flush padded. */
  ghost predicate Intact(mode: Mode, cs: seq<Chunk>) {
    match mode
    case Mmap => true
    case Buffered => AllComplete(cs)
    case Direct => Unpadded(cs)
  }

  lemma IntactExactly(c: Config, s: System, ms: seq<Message>)
    requires JournalOk(c, s) && FinalFile(c, s, ms) && (c.mode.Direct? ==> AlwaysComplete(c.device))
    ensures s.stop.file == Stream(ms) <==> Intact(c.mode, s.journal.chunks)
  {
    var cs := s.journal.chunks;
    if c.mode.Buffered? {
      WholeExactly(cs);
      if AllComplete(cs) {
        CompleteDisk(cs);
      }
    } else if c.mode.Direct? {
      UnpaddedExactly(cs);
      CompleteDisk(cs);
    }
  }

  /** The closed file reads back as the given messages exactly when they are well-typed and the file is intact. */
  ghost predicate ReadsBackExactly(c: Config, s: System, ms: seq<Message>) {
    && s.stop.Stopped?
    && (!c.mode.Direct? || AlwaysComplete(c.device) ==>
          (ReadLog(s.stop.file) == Some(ms) <==> AllWellTyped(ms) && Intact(c.mode, s.journal.chunks)))
  }

  lemma ReadBack(c: Config, s: System)
    requires JournalOk(c, s) && s.stop.Stopped?
    ensures ReadsBackExactly(c, s, s.journal.messages)
  {
    var ms := s.journal.messages;
    StoppedFile(c, s);
    if !c.mode.Direct? || AlwaysComplete(c.device) {
      IntactExactly(c, s, ms);
      ReadExactly(s.stop.file, ms);
    }
  }

  /** At every moment of every session the file layer holds a prefix of the claimed messages, in ticket order; so does the closed file. */
  lemma AlwaysAPrefix(c: Config, s0: System, moves: seq<Move>)
    requires Started(c, s0)
    ensures var s := Go(c, s0, moves); var k := |s.journal.messages|;
            && k <= s.queue.queue.tail <= |Sent(s)|
            && s.journal.messages == Sent(s)[..k]
            && FileHolds(c, s, Sent(s)[..k])
            && (s.stop.Stopped? ==> FinalFile(c, s, Sent(s)[..k]) && ReadsBackExactly(c, s, Sent(s)[..k]))
  {
    StartedInv(c, s0);
    SessionKeeps(c, s0.queue.queue, s0, moves);
    var s := Go(c, s0, moves);
    PrefixOfSent(c, s0.queue.queue, s);
    JournalFile(c, s);
    if s.stop.Stopped? {
      StoppedFile(c, s);
      ReadBack(c, s);
    }
  }

  /**
   End to end: a session whose stop() begins with no log() call in flight, none starting later, ends with
   a file that accounts for exactly the accepted messages, in ticket order, whatever the device did; it reads back
   as those messages exactly when it is intact.
   */
  lemma EndToEnd(c: Config, s0: System, before: seq<Move>, after: seq<Move>)
    requires Started(c, s0) && NoNewCalls(after)
    requires Go(c, s0, before).stop.NotStopped? && Quiet(Go(c, s0, before))
    requires Go(c, s0, before + ([Stop] + after)).stop.Stopped?
    ensures var s := Go(c, s0, before + ([Stop] + after));
            AcceptedExactly(s) && FinalFile(c, s, Sent(s)) && ReadsBackExactly(c, s, Sent(s))
  {
    var start := s0.queue.queue;
    StartedInv(c, s0);
    SessionKeeps(c, start, s0, before);
    GoAppend(c, s0, before, [Stop] + after);
    var mid := Go(c, s0, before);
    OrderlyStop(c, start, mid, after);
    SessionKeeps(c, start, mid, [Stop] + after);
    var s := Go(c, mid, [Stop] + after);
    StoppedFile(c, s);
    ReadBack(c, s);
    AllReturned(c, start, mid, s, after);
  }

  lemma AllReturned(c: Config, start: Queue<ParsedMessage>, mid: System, s: System, after: seq<Move>)
    requires CoreInv(c, start, mid) && mid.stop.NotStopped? && Quiet(mid) && NoNewCalls(after)
    requires s == Go(c, mid, [Stop] + after) && CoreInv(c, start, s)
    ensures AcceptedExactly(s)
  {
    GoAppend(c, mid, [Stop], after);
    OneMove(c, mid, Stop);
    NextKeeps(c, start, mid, Stop);
    WindsDown(c, start, Next(c, mid, Stop), after);
    QuietAccepted(c, start, s);
  }
}
