/** Whole runs of the resequencer: order, conservation, bounded memory, and the guards that never fire. */
module ReorderRuns {
  import opened Bytes
  import opened Resequencer

  // ----- one operation

  lemma PrimeValid(b: Buffer, no: int, now: real)
    requires Valid(b)
    ensures Valid(Prime(b, no, now)) && Prime(b, no, now).started
    ensures var b1 := Prime(b, no, now);
            && b1.held == b.held && b1.seen == b.seen && b1.stats == b.stats
            && (b.started && !b.priming ==> b1 == b) && (b1.priming ==> b1.next <= no)
  {
  }

  lemma AcceptValid(b: Buffer, e: Entry)
    requires Valid(b) && b.started && Judge(b, e.no) == Accepted
    ensures Valid(Accept(b, e)) && |Accept(b, e).held| == |b.held| + 1
    ensures multiset(Accept(b, e).held) == multiset(b.held) + multiset{e}
  {
    InsertAscending(b.held, e);
    InsertMembers(b.held, e);
    InsertItems(b.held, e);
    hide Insert, Slot, Ascending, Holds;
  }

  /** Moving past numbers without delivering them is only ever done for counted gaps, unless there was an overflow. */
  ghost predicate Counts(b: Buffer, b': Buffer) {
    && b'.stats.overflowFlushes >= b.stats.overflowFlushes
    && (b'.stats.overflowFlushes == b.stats.overflowFlushes ==> Distance(b') == Distance(b))
  }

  /** Nothing held is due: the head is ahead of the stream position and its deadline has not come. */
  ghost predicate Quiet(b: Buffer, now: real) {
    b.held == [] || (b.held[0].no > b.next && now < b.held[0].deadline)
  }

  /** `_drain` is an abstract release; once priming is over it leaves nothing due. */
  lemma DrainReleases(b: Buffer, now: real)
    requires Valid(b) && b.started
    ensures var (b', out) := Drain(b, now);
            && Valid(b') && Releases(b, b', out) && Distance(b') == Distance(b)
            && b'.stats.overflowFlushes == b.stats.overflowFlushes
            && (if b.priming && now < b.primeDeadline then b' == b && out == []
                else !b'.priming && Quiet(b', now))
  {
    hide DrainLoop, Ascending;
    if !(b.priming && now < b.primeDeadline) { DrainLoopReleases(b.(priming := false), now); }
  }

  /** An overflow flush leaves exactly half a capacity behind. */
  lemma ForceFlushReleases(b: Buffer)
    requires Valid(b) && b.started && |b.held| > b.capacity
    ensures var (b', out) := ForceFlush(b);
            && Valid(b') && Releases(b, b', out) && Counts(b, b') && !b'.priming && |b'.held| == b.capacity / 2
  {
    hide FlushLoop, Ascending;
    var b0 := b.(priming := false, stats := b.stats.(overflowFlushes := b.stats.overflowFlushes + 1));
    FlushLoopReleases(b0, |b.held| - b.capacity / 2);
  }

  function Settled(b: Buffer): int {
    b.stats.delivered + |b.held| + b.stats.duplicates + b.stats.lateDrops
  }

  /** The queue as a push leaves it for release: the new packet is in it exactly when it was accepted. */
  function Queued(b: Buffer, no: int, payload: Bytes, now: real): Buffer {
    var b1 := Prime(b, no, now);
    match Judge(b1, no)
    case Duplicate => b1.(stats := b1.stats.(duplicates := b1.stats.duplicates + 1))
    case Late => b1.(stats := b1.stats.(lateDrops := b1.stats.lateDrops + 1))
    case Accepted => Accept(b1, Entry(no, payload, now + b1.timeout))
  }

  lemma QueuedValid(b: Buffer, no: int, payload: Bytes, now: real)
    requires Valid(b)
    ensures var b1, q := Prime(b, no, now), Queued(b, no, payload, now);
            && Valid(b1) && Valid(q)
            && |q.held| <= |b.held| + 1
            && (Judge(b1, no) == Accepted ==>
                 multiset(q.held) == multiset(b.held) + multiset{Entry(no, payload, now + b1.timeout)})
            && (Judge(b1, no) != Accepted ==> q.held == b.held)
  {
    hide Prime, Accept, Judge, Ascending;
    PrimeValid(b, no, now);
    var b1 := Prime(b, no, now);
    if Judge(b1, no) == Accepted {
      AcceptValid(b1, Entry(no, payload, now + b1.timeout));
    }
  }

  /** Queueing a packet settles exactly one push and touches nothing else the queue is measured by. */
  lemma QueuedCounts(b: Buffer, no: int, payload: Bytes, now: real)
    requires Valid(b)
    ensures var b1, q := Prime(b, no, now), Queued(b, no, payload, now);
            && q.started && q.next == b1.next && q.priming == b1.priming
            && Settled(q) == Settled(b) + 1 && Distance(q) == Distance(b1)
            && q.stats.overflowFlushes == b.stats.overflowFlushes && q.stats.delivered == b.stats.delivered
            && q.stats.gapSkips == b.stats.gapSkips
            && q.capacity == b.capacity && q.memory == b.memory && q.timeout == b.timeout
  {
    var b1 := Prime(b, no, now);
    hide Valid, Holds;
    if Judge(b1, no) == Accepted { InsertAtSlot(b1.held, Entry(no, payload, now + b1.timeout)); }
  }

  lemma AcceptedReleases(q: Buffer, now: real)
    requires Valid(q) && q.started && |q.held| <= q.capacity + 1
    ensures var (b, out) := Drain(q, now);
            if |b.held| <= b.capacity then Valid(b) && Releases(q, b, out) && Counts(q, b)
            else var (b', more) := ForceFlush(b);
                 Valid(b') && Releases(q, b', out + more) && Counts(q, b') && |b'.held| <= b'.capacity
  {
    hide DrainLoop, FlushLoop, Drain, ForceFlush;
    DrainReleases(q, now);
    var (b, out) := Drain(q, now);
    if |b.held| > b.capacity {
      ForceFlushReleases(b);
      var (b', more) := ForceFlush(b);
      hide Valid;
      ReleasesTrans(q, b, b', out, more);
    }
  }

  lemma ReleasesNothing(b: Buffer)
    ensures Releases(b, b, []) && Counts(b, b)
  {
    assert b.held == [] + b.held;
  }

  /**
   One push: the new packet is queued or dropped, then the queue releases; the buffer stays within capacity.
   */
  lemma PushReleases(b: Buffer, no: int, payload: Bytes, now: real)
    requires Valid(b) && |b.held| <= b.capacity
    ensures var (b', out) := Push(b, no, payload, now);
            var q := Queued(b, no, payload, now);
            Valid(b') && Releases(q, b', out) && Counts(q, b') && |b'.held| <= b'.capacity
  {
    hide Valid, Prime, Judge, Accept, Drain, ForceFlush, Releases, Counts, Settled, Distance;
    QueuedValid(b, no, payload, now);
    QueuedCounts(b, no, payload, now);
    var q := Queued(b, no, payload, now);
    if Judge(Prime(b, no, now), no) == Accepted {
      AcceptedReleases(q, now);
    } else {
      ReleasesNothing(q);
    }
  }

  /** With room for what stays, a push to a primed buffer is its drain. */
  lemma {:induction false} PushIsDrain(b: Buffer, no: int, payload: Bytes, now: real)
    requires b.started && !b.priming && Judge(b, no) == Accepted
    requires |DrainLoop(Queued(b, no, payload, now), now).0.held| <= b.capacity
    requires DrainLoop(Queued(b, no, payload, now), now).0.capacity == b.capacity
    ensures Push(b, no, payload, now) == DrainLoop(Queued(b, no, payload, now), now)
  {
    hide DrainLoop;
    var q := Queued(b, no, payload, now);
    assert q.(priming := false) == q;
  }

  lemma TickReleases(b: Buffer, now: real)
    requires Valid(b)
    ensures var (b', out) := Tick(b, now);
            && Valid(b') && Releases(b, b', out) && Distance(b') == Distance(b)
            && b'.stats.overflowFlushes == b.stats.overflowFlushes && (b'.priming || Quiet(b', now))
  {
    if b.started { DrainReleases(b, now); }
  }

  lemma FlushReleases(b: Buffer)
    requires Valid(b)
    ensures var (b', out) := Flush(b);
            Valid(b') && Releases(b, b', out) && out == b.held && b'.held == [] && !b'.priming
  {
    hide Release, FlushLoop, Ascending;
    FlushLoopReleases(b.(priming := false), |b.held|);
  }

  // ----- runs

  datatype Event = Arrive(no: int, payload: Bytes, now: real) | Timer(now: real) | Shutdown

  function Apply(b: Buffer, ev: Event): (Buffer, seq<Entry>) {
    match ev
    case Arrive(no, payload, now) => Push(b, no, payload, now)
    case Timer(now) => Tick(b, now)
    case Shutdown => Flush(b)
  }

  /**
   A run as an observer records it.  `accepted` logs packets let in, `released` packets handed out, `origin`
   the stream start settled by priming, and `skipped` whether an overflow flush or a shutdown happened.
   */
  datatype History = History(buf: Buffer, pushes: nat, accepted: seq<Entry>, released: seq<Entry>, origin: int,
                             skipped: bool)

  function Start(b: Buffer): History {
    History(b, 0, [], [], 0, false)
  }

  function Observe(h: History, ev: Event): History {
    var (b, out) := Apply(h.buf, ev);
    var released := h.released + out;
    match ev
    case Timer(_) => h.(buf := b, released := released)
    case Shutdown => h.(buf := b, released := released, skipped := true)
    case Arrive(no, payload, now) =>
      var b1 := Prime(h.buf, no, now);
      History(b, h.pushes + 1,
              if Judge(b1, no) == Accepted then h.accepted + [Entry(no, payload, now + b1.timeout)] else h.accepted,
              released,
              if b1.priming then b1.next else h.origin,
              h.skipped || b.stats.overflowFlushes != h.buf.stats.overflowFlushes)
  }

  function Run(h: History, evs: seq<Event>): History
    decreases |evs|
  {
    if evs == [] then h else Run(Observe(h, evs[0]), evs[1..])
  }

  ghost predicate InOrder(h: History) {
    && Valid(h.buf) && |h.buf.held| <= h.buf.capacity
    && Ascending(h.released)
    && (forall i :: 0 <= i < |h.released| ==> h.released[i].no < h.buf.next)
    && (h.buf.priming || !h.buf.started ==> h.released == [])
  }

  ghost predicate Accounted(h: History) {
    && h.pushes == Settled(h.buf)
    && h.buf.stats.delivered == |h.released|
    && multiset(h.released + h.buf.held) == multiset(h.accepted)
  }

  ghost predicate Measured(h: History) {
    && (!h.buf.started || h.buf.priming ==> h.buf.stats.delivered == 0 && h.buf.stats.gapSkips == 0)
    && (h.buf.started && h.buf.priming ==> h.origin == h.buf.next)
    && (h.buf.started ==> Distance(h.buf) >= h.origin && (!h.skipped ==> Distance(h.buf) == h.origin))
  }

  /** The queue the event releases from. */
  function Source(b: Buffer, ev: Event): Buffer {
    match ev
    case Arrive(no, payload, now) => Queued(b, no, payload, now)
    case _ => b
  }

  lemma ApplyReleases(b: Buffer, ev: Event)
    requires Valid(b) && |b.held| <= b.capacity
    ensures var (b', out) := Apply(b, ev);
            var q := Source(b, ev);
            && Valid(q) && Valid(b') && Releases(q, b', out) && |b'.held| <= b'.capacity
            && (ev != Shutdown ==> Counts(q, b'))
            && (ev.Timer? ==> b'.stats.overflowFlushes == b.stats.overflowFlushes)
            && q.memory == b.memory && q.capacity == b.capacity
  {
    match ev
    case Timer(now) => TickReleases(b, now);
    case Shutdown => FlushReleases(b);
    case Arrive(no, payload, now) =>
      PushReleases(b, no, payload, now);
      QueuedValid(b, no, payload, now);
      QueuedCounts(b, no, payload, now);
  }

  lemma ReleaseInOrder(released: seq<Entry>, q: Buffer, b: Buffer, out: seq<Entry>)
    requires Ascending(released) && Valid(q) && Releases(q, b, out)
    requires forall i :: 0 <= i < |released| ==> released[i].no < q.next
    ensures Ascending(released + out)
    ensures forall i :: 0 <= i < |released + out| ==> (released + out)[i].no < b.next
  {
    assert forall i :: 0 <= i < |out| ==> out[i] == q.held[i];
  }

  lemma ObserveInOrder(h: History, ev: Event)
    requires InOrder(h)
    ensures InOrder(Observe(h, ev))
  {
    ApplyReleases(h.buf, ev);
    var (b, out) := Apply(h.buf, ev);
    var q := Source(h.buf, ev);
    if ev.Arrive? {
      PrimeValid(h.buf, ev.no, ev.now);
      QueuedValid(h.buf, ev.no, ev.payload, ev.now);
      QueuedCounts(h.buf, ev.no, ev.payload, ev.now);
    }
    ReleaseInOrder(h.released, q, b, out);
  }

  lemma SameItems(released: seq<Entry>, held: seq<Entry>, out: seq<Entry>, rest: seq<Entry>)
    requires held == out + rest
    ensures multiset(released + out + rest) == multiset(released) + multiset(held)
  {
    assert released + out + rest == released + (out + rest);
  }

  lemma QueuedAccounted(b: Buffer, no: int, payload: Bytes, now: real, released: seq<Entry>, accepted: seq<Entry>)
    requires Valid(b) && multiset(released) + multiset(b.held) == multiset(accepted)
    ensures var b1, q := Prime(b, no, now), Queued(b, no, payload, now);
            && Settled(q) == Settled(b) + 1 && q.stats.delivered == b.stats.delivered
            && multiset(released) + multiset(q.held)
               == multiset(if Judge(b1, no) == Accepted then accepted + [Entry(no, payload, now + b1.timeout)]
                           else accepted)
  {
    hide Valid, Prime, Judge, Queued, Settled;
    QueuedValid(b, no, payload, now);
    QueuedCounts(b, no, payload, now);
  }

  /** Queueing settles an arrival: the accepted packet is in the queue, and nothing else came or went. */
  lemma SourceAccounted(h: History, ev: Event)
    requires InOrder(h) && Accounted(h)
    ensures var h', q := Observe(h, ev), Source(h.buf, ev);
            && h'.buf == Apply(h.buf, ev).0 && h'.released == h.released + Apply(h.buf, ev).1
            && h'.pushes == Settled(q) && q.stats.delivered == |h.released|
            && multiset(h.released) + multiset(q.held) == multiset(h'.accepted)
  {
    hide Valid, Prime, Judge, Apply, Queued, Settled, Ascending;
    assert multiset(h.released + h.buf.held) == multiset(h.released) + multiset(h.buf.held);
    if ev.Arrive? {
      QueuedAccounted(h.buf, ev.no, ev.payload, ev.now, h.released, h.accepted);
    }
  }

  lemma ReleaseAccounted(released: seq<Entry>, accepted: seq<Entry>, q: Buffer, b: Buffer, out: seq<Entry>)
    requires Releases(q, b, out) && q.stats.delivered == |released|
    requires multiset(released) + multiset(q.held) == multiset(accepted)
    ensures Settled(b) == Settled(q) && b.stats.delivered == |released + out|
    ensures multiset(released + out + b.held) == multiset(accepted)
  {
    SameItems(released, q.held, out, b.held);
  }

  lemma ObserveAccounted(h: History, ev: Event)
    requires InOrder(h) && Accounted(h)
    ensures Accounted(Observe(h, ev))
  {
    hide Valid, Apply, Releases, Settled;
    ApplyReleases(h.buf, ev);
    var (b, out) := Apply(h.buf, ev);
    var h' := Observe(h, ev);
    SourceAccounted(h, ev);
    hide Observe, Source, InOrder;
    ReleaseAccounted(h.released, h'.accepted, Source(h.buf, ev), b, out);
  }

  lemma ObserveMeasured(h: History, ev: Event)
    requires InOrder(h) && Accounted(h) && Measured(h)
    ensures Measured(Observe(h, ev))
  {
    hide Valid, Insert, Judge, DrainLoop, FlushLoop, Drain, ForceFlush, Push, Tick, Flush, Accept;
    ApplyReleases(h.buf, ev);
    if ev.Arrive? {
      PrimeValid(h.buf, ev.no, ev.now);
      QueuedCounts(h.buf, ev.no, ev.payload, ev.now);
    }
  }

  lemma {:induction false} RunInvariant(h: History, evs: seq<Event>)
    requires InOrder(h) && Accounted(h) && Measured(h)
    ensures InOrder(Run(h, evs)) && Accounted(Run(h, evs)) && Measured(Run(h, evs))
    decreases |evs|
  {
    if evs != [] {
      ObserveInOrder(h, evs[0]);
      ObserveAccounted(h, evs[0]);
      ObserveMeasured(h, evs[0]);
      RunInvariant(Observe(h, evs[0]), evs[1..]);
    }
  }

  lemma NothingLost(h: History)
    requires InOrder(h) && Accounted(h)
    ensures Ascending(h.released + h.buf.held)
    ensures multiset(h.released + h.buf.held) == multiset(h.accepted)
  {
  }

  lemma {:induction false} RunKeepsMemory(h: History, evs: seq<Event>)
    requires InOrder(h)
    ensures Run(h, evs).buf.memory == h.buf.memory
    decreases |evs|
  {
    if evs != [] {
      ObserveInOrder(h, evs[0]);
      ApplyReleases(h.buf, evs[0]);
      RunKeepsMemory(Observe(h, evs[0]), evs[1..]);
    }
  }

  /**
   Main result for every run of a new buffer, on any clock.  What came out, followed by what is still held,
   is the accepted packets in strictly increasing order: nothing is lost, invented, repeated or swapped.
   */
  lemma {:induction false} RunsAreOrdered(timeoutMs: real, capacity: int, memory: Memory, evs: seq<Event>)
    ensures var h := Run(Start(NewBuffer(timeoutMs, capacity, memory)), evs);
            && Ascending(h.released + h.buf.held)
            && multiset(h.released + h.buf.held) == multiset(h.accepted)
            && |h.buf.held| <= h.buf.capacity
            && (memory == Pruned ==> |h.buf.seen| <= 4 * h.buf.capacity)
  {
    var h := Start(NewBuffer(timeoutMs, capacity, memory));
    RunInvariant(h, evs);
    RunKeepsMemory(h, evs);
    hide Run, Accounted;
    assert Accounted(Run(h, evs));
    NothingLost(Run(h, evs));
  }

  /** The counters balance: every push was delivered, is held, or was counted as a duplicate or a late drop. */
  lemma {:induction false} RunsBalance(timeoutMs: real, capacity: int, memory: Memory, evs: seq<Event>)
    ensures var h := Run(Start(NewBuffer(timeoutMs, capacity, memory)), evs);
            var s := h.buf.stats;
            && h.pushes == s.delivered + |h.buf.held| + s.duplicates + s.lateDrops
            && s.delivered == |h.released|
            && (h.buf.started && !h.buf.priming ==>
                  && h.buf.next - h.origin >= s.delivered + s.gapSkips
                  && (!h.skipped ==> h.buf.next - h.origin == s.delivered + s.gapSkips))
  {
    RunInvariant(Start(NewBuffer(timeoutMs, capacity, memory)), evs);
  }

  lemma SameNumbers(es: seq<Entry>, fs: seq<Entry>, no: int)
    requires multiset(es) == multiset(fs) && Holds(es, no)
    ensures Holds(fs, no)
  {
    var i :| 0 <= i < |es| && es[i].no == no;
    assert es[i] in multiset(fs);
  }

  /** The numbers accepted so far are those released and those held. */
  lemma AcceptedAre(h: History, no: int)
    requires Accounted(h)
    ensures Holds(h.accepted, no) <==> Holds(h.released, no) || Holds(h.buf.held, no)
  {
    var all := h.released + h.buf.held;
    if Holds(h.accepted, no) {
      SameNumbers(h.accepted, all, no);
      var j :| 0 <= j < |all| && all[j].no == no;
      assert all[j] == if j < |h.released| then h.released[j] else h.buf.held[j - |h.released|];
    }
    if Holds(h.released, no) {
      var i :| 0 <= i < |h.released| && h.released[i].no == no;
      assert all[i].no == no;
      SameNumbers(all, h.accepted, no);
    }
    if Holds(h.buf.held, no) {
      var i :| 0 <= i < |h.buf.held| && h.buf.held[i].no == no;
      assert all[|h.released| + i].no == no;
      SameNumbers(all, h.accepted, no);
    }
  }

  lemma ReleasedAreBehind(h: History, no: int, now: real)
    requires InOrder(h)
    ensures Holds(h.released, no) ==> no < Prime(h.buf, no, now).next
  {
  }

  /** A packet is let in exactly when no copy of it was let in before and the stream has not moved past it. */
  lemma FirstCopiesOnly(h: History, no: int, now: real)
    requires InOrder(h) && Accounted(h)
    ensures var b1 := Prime(h.buf, no, now);
            Judge(b1, no) == Accepted <==> no >= b1.next && !Holds(h.accepted, no)
  {
    PrimeValid(h.buf, no, now);
    AcceptedAre(h, no);
    ReleasedAreBehind(h, no, now);
    hide Accounted, Ascending, Holds;
  }

  // ----- the defensive guards

  /** `_drain` without its test for a head below the stream position. */
  function PlainDrain(b: Buffer, now: real): (Buffer, seq<Entry>)
    decreases |b.held|
  {
    if b.held == [] || !(b.held[0].no == b.next || now >= b.held[0].deadline) then (b, [])
    else
      var skipped := if b.held[0].no > b.next then b.held[0].no - b.next else 0;
      var (b', out) := PlainDrain(Release(CountGap(b, skipped)), now);
      (b', [b.held[0]] + out)
  }

  /** `_force_flush` and `flush` without theirs: the oldest `target` entries leave unconditionally. */
  function PlainFlush(b: Buffer, target: int): (Buffer, seq<Entry>)
    decreases |b.held|
  {
    if b.held == [] || target <= 0 then (b, [])
    else
      var (b', out) := PlainFlush(Release(b), target - 1);
      (b', [b.held[0]] + out)
  }

  lemma {:induction false} DrainGuardIdle(b: Buffer, now: real)
    requires Valid(b) && !b.priming && b.started
    ensures DrainLoop(b, now) == PlainDrain(b, now)
    decreases |b.held|
  {
    hide Remember, Ascending;
    if b.held != [] && Due(b, now) {
      DrainTurn(b, now);
      var b1 := Release(CountGap(b, b.held[0].no - b.next));
      assert b.held[0].no >= b.next;
      hide Release, Valid;
      DrainGuardIdle(b1, now);
    }
  }

  lemma {:induction false} FlushGuardIdle(b: Buffer, target: int)
    requires Valid(b) && !b.priming && b.started
    ensures FlushLoop(b, target) == PlainFlush(b, target)
    decreases |b.held|
  {
    if b.held != [] && target > 0 {
      FlushTurn(b, target);
      hide Release, Valid;
      FlushGuardIdle(Release(b), target - 1);
    }
  }

  /** In every reachable state the guard against a stale head never fires: the loops equal the guardless ones. */
  lemma {:induction false} GuardsNeverFire(b: Buffer, now: real, target: int)
    requires Valid(b) && !b.priming && b.started
    ensures DrainLoop(b, now) == PlainDrain(b, now)
    ensures FlushLoop(b, target) == PlainFlush(b, target)
  {
    DrainGuardIdle(b, now);
    FlushGuardIdle(b, target);
  }
}
