/** What the reorder buffer tells about itself: its memory of delivered numbers, and its statistics, over every run. */
module ReorderStatistics {
  import opened Bytes
  import opened Resequencer
  import opened ReorderRuns

  // ----- what is remembered

  /** Seen numbers were released; with pruning everything down to two capacities below the position is still seen. */
  ghost predicate Recalls(b: Buffer, released: seq<Entry>) {
    && (forall no :: no in b.seen ==> Holds(released, no))
    && match b.memory
       case Nothing => b.seen == {}
       case Everything => forall i :: 0 <= i < |released| ==> released[i].no in b.seen
       case Pruned =>
         forall i :: 0 <= i < |released| && released[i].no >= b.next - 2 * b.capacity ==> released[i].no in b.seen
  }

  lemma HoldsMore(es: seq<Entry>, e: Entry, no: int)
    ensures Holds(es + [e], no) <==> Holds(es, no) || e.no == no
  {
    assert (es + [e])[|es|] == e;
    assert forall i :: 0 <= i < |es| ==> (es + [e])[i] == es[i];
  }

  lemma TurnRecalls(b: Buffer, released: seq<Entry>)
    requires Valid(b) && b.held != [] && Recalls(b, released)
    ensures Recalls(Release(b), released + [b.held[0]])
  {
    var e := b.held[0];
    forall no ensures Holds(released + [e], no) <==> Holds(released, no) || e.no == no { HoldsMore(released, e, no); }
    hide Holds;
    assert forall i :: 0 <= i < |released| ==> (released + [e])[i] == released[i];
  }

  lemma SameMemory(b: Buffer, b0: Buffer, released: seq<Entry>)
    requires b0 == b.(stats := b0.stats, priming := b0.priming) && (b.priming ==> b.seen == {})
    ensures Recalls(b, released) <==> Recalls(b0, released)
    ensures Valid(b) && !b0.priming ==> Valid(b0)
  {
  }

  lemma {:induction false} DrainRecalls(b: Buffer, now: real, released: seq<Entry>)
    requires Valid(b) && !b.priming && b.started && Recalls(b, released)
    ensures var (b', out) := DrainLoop(b, now); Recalls(b', released + out)
    decreases |b.held|
  {
    hide Recalls, Remember;
    if b.held != [] && Due(b, now) {
      DrainTurn(b, now);
      var b0 := CountGap(b, b.held[0].no - b.next);
      SameMemory(b, b0, released);
      TurnRecalls(b0, released);
      hide Release, Valid;
      DrainRecalls(Release(b0), now, released + [b.held[0]]);
      var out := DrainLoop(Release(b0), now).1;
      assert released + [b.held[0]] + out == released + ([b.held[0]] + out);
    } else {
      assert released + [] == released;
    }
  }

  lemma {:induction false} FlushRecalls(b: Buffer, target: int, released: seq<Entry>)
    requires Valid(b) && !b.priming && (b.started || b.held == []) && Recalls(b, released)
    ensures var (b', out) := FlushLoop(b, target); Recalls(b', released + out)
    decreases |b.held|
  {
    hide Recalls, Remember;
    if b.held != [] && target > 0 {
      FlushTurn(b, target);
      TurnRecalls(b, released);
      hide Release, Valid;
      FlushRecalls(Release(b), target - 1, released + [b.held[0]]);
      var out := FlushLoop(Release(b), target - 1).1;
      assert released + [b.held[0]] + out == released + ([b.held[0]] + out);
    } else {
      assert released + [] == released;
    }
  }

  lemma {:induction false} NoneToDrain(q: Buffer, now: real)
    requires q.held == []
    ensures DrainLoop(q, now) == (q, [])
  {
  }

  lemma DrainedRecalls(q: Buffer, now: real, released: seq<Entry>)
    requires Valid(q) && Recalls(q, released)
    ensures var (b, out) := Drain(q, now); Recalls(b, released + out)
  {
    hide Recalls, DrainLoop;
    assert released + [] == released;
    if !(q.priming && now < q.primeDeadline) {
      var q0 := q.(priming := false);
      SameMemory(q, q0, released);
      if q.started {
        DrainRecalls(q0, now, released);
      } else {
        NoneToDrain(q0, now);
      }
    }
  }

  lemma ForcedRecalls(b: Buffer, released: seq<Entry>)
    requires Valid(b) && b.started && Recalls(b, released)
    ensures var (b', out) := ForceFlush(b); Recalls(b', released + out)
  {
    hide Recalls, FlushLoop;
    var b0 := b.(priming := false, stats := b.stats.(overflowFlushes := b.stats.overflowFlushes + 1));
    SameMemory(b, b0, released);
    FlushRecalls(b0, |b.held| - b.capacity / 2, released);
  }

  lemma FlushedRecalls(b: Buffer, released: seq<Entry>)
    requires Valid(b) && Recalls(b, released)
    ensures var (b', out) := Flush(b); Recalls(b', released + out)
  {
    hide Recalls, FlushLoop;
    SameMemory(b, b.(priming := false), released);
    FlushRecalls(b.(priming := false), |b.held|, released);
  }

  lemma QueuedRecalls(b: Buffer, no: int, payload: Bytes, now: real, released: seq<Entry>)
    requires Valid(b) && Recalls(b, released) && (b.priming || !b.started ==> released == [])
    ensures Recalls(Queued(b, no, payload, now), released)
  {
    hide Judge, Insert;
  }

  lemma PushRecalls(b: Buffer, no: int, payload: Bytes, now: real, released: seq<Entry>)
    requires Valid(b) && Recalls(b, released) && |b.held| <= b.capacity
    requires b.priming || !b.started ==> released == []
    ensures var (b', out) := Push(b, no, payload, now); Recalls(b', released + out)
  {
    hide Recalls, Drain, ForceFlush, Prime, Judge, Accept, Valid;
    QueuedRecalls(b, no, payload, now, released);
    QueuedValid(b, no, payload, now);
    QueuedCounts(b, no, payload, now);
    var q := Queued(b, no, payload, now);
    assert released + [] == released;
    if Judge(Prime(b, no, now), no) == Accepted {
      DrainedRecalls(q, now, released);
      DrainReleases(q, now);
      var (b2, out) := Drain(q, now);
      if |b2.held| > b2.capacity {
        ForcedRecalls(b2, released + out);
        assert released + out + ForceFlush(b2).1 == released + (out + ForceFlush(b2).1);
      }
    }
  }

  /** How far back the buffer's memory is certain to reach. */
  predicate InReach(b: Buffer, no: int) {
    b.memory == Everything || (b.memory == Pruned && no >= b.next - 2 * b.capacity)
  }

  ghost predicate Remembers(h: History) {
    InOrder(h) && Accounted(h) && Recalls(h.buf, h.released)
  }

  lemma TickRecalls(b: Buffer, now: real, released: seq<Entry>)
    requires Valid(b) && Recalls(b, released)
    ensures var (b', out) := Tick(b, now); Recalls(b', released + out)
  {
    hide Recalls, Drain, Valid;
    DrainedRecalls(b, now, released);
  }

  lemma ObserveRemembers(h: History, ev: Event)
    requires Remembers(h)
    ensures Remembers(Observe(h, ev))
  {
    ObserveInOrder(h, ev);
    ObserveAccounted(h, ev);
    hide Recalls, Push, Tick, Flush, Valid, Accounted, Ascending;
    match ev
    case Arrive(no, payload, now) => PushRecalls(h.buf, no, payload, now, h.released);
    case Timer(now) => TickRecalls(h.buf, now, h.released);
    case Shutdown => FlushedRecalls(h.buf, h.released);
  }

  lemma {:induction false} RunRemembers(h: History, evs: seq<Event>)
    requires Remembers(h)
    ensures Remembers(Run(h, evs))
    decreases |evs|
  {
    hide Remembers, Observe;
    if evs != [] {
      ObserveRemembers(h, evs[0]);
      RunRemembers(Observe(h, evs[0]), evs[1..]);
    }
  }

  lemma NewRemembers(timeoutMs: real, capacity: int, memory: Memory)
    ensures Remembers(Start(NewBuffer(timeoutMs, capacity, memory)))
  {
  }

  lemma ReleasedSeen(h: History, no: int)
    requires Remembers(h)
    ensures no in h.buf.seen ==> Holds(h.released, no)
    ensures Holds(h.released, no) && InReach(h.buf, no) ==> no in h.buf.seen
  {
  }

  /**
   How a refused packet is counted, after every run of a new buffer.  One counted as a duplicate really was accepted
   before. Conversely a second copy is counted as a duplicate, not as late, if its packet is still held, or if the
   buffer never forgets, or if it lies at most two capacities behind the position.
   */
  lemma {:induction false} DuplicatesTold(timeoutMs: real, capacity: int, memory: Memory, evs: seq<Event>, no: int,
                                          now: real)
    ensures var h := Run(Start(NewBuffer(timeoutMs, capacity, memory)), evs);
            var v := Judge(Prime(h.buf, no, now), no);
            && (v == Duplicate ==> Holds(h.accepted, no))
            && (Holds(h.buf.held, no) ==> v == Duplicate)
            && h.buf.memory == memory
            && (Holds(h.accepted, no) && InReach(h.buf, no) ==> v == Duplicate)
  {
    NewRemembers(timeoutMs, capacity, memory);
    var h0 := Start(NewBuffer(timeoutMs, capacity, memory));
    RunRemembers(h0, evs);
    RunKeepsMemory(h0, evs);
    hide Run, NewBuffer;
    var h := Run(h0, evs);
    PrimeValid(h.buf, no, now);
    AcceptedAre(h, no);
    ReleasedSeen(h, no);
    hide Holds, Recalls, Accounted, Valid;
  }

  // ----- what is counted

  /** Sums over a run: copies refused, packets too late, packets out of turn, the longest queue, and overflows. */
  datatype Tally = Tally(duplicates: nat, late: nat, strays: nat, peak: nat, overflows: nat)

  function Larger(a: nat, b: nat): nat {
    if a > b then a else b
  }

  function Add(a: Tally, b: Tally): Tally {
    Tally(a.duplicates + b.duplicates, a.late + b.late, a.strays + b.strays, Larger(a.peak, b.peak),
          a.overflows + b.overflows)
  }

  /**
   What one event adds.  An arrival is a copy, too late, or accepted; an accepted one is out of turn when it is not at
   the position, and the queue is longest with it just put in; it overflows when a drain leaves more than the
   capacity.
   */
  function OneTally(b: Buffer, ev: Event): Tally {
    match ev
    case Timer(_) => Tally(0, 0, 0, 0, 0)
    case Shutdown => Tally(0, 0, 0, 0, 0)
    case Arrive(no, payload, now) =>
      var b1, q := Prime(b, no, now), Queued(b, no, payload, now);
      match Judge(b1, no)
      case Duplicate => Tally(1, 0, 0, 0, 0)
      case Late => Tally(0, 1, 0, 0, 0)
      case Accepted =>
        Tally(0, 0, if no == b1.next then 0 else 1, |b.held| + 1, if |Drain(q, now).0.held| > b.capacity then 1 else 0)
  }

  function TallyOf(h: History, evs: seq<Event>): Tally
    decreases |evs|
  {
    if evs == [] then Tally(0, 0, 0, 0, 0) else Add(OneTally(h.buf, evs[0]), TallyOf(Observe(h, evs[0]), evs[1..]))
  }

  function Told(b: Buffer): Tally {
    Tally(b.stats.duplicates, b.stats.lateDrops, b.stats.reordered, b.stats.maxHeld, b.stats.overflowFlushes)
  }

  lemma QueuedTold(b: Buffer, no: int, payload: Bytes, now: real)
    requires Valid(b)
    ensures var t := OneTally(b, Arrive(no, payload, now));
            Told(Queued(b, no, payload, now)) == Add(Told(b), t.(overflows := 0))
  {
    hide Holds, Insert, Drain, Valid;
    PrimeValid(b, no, now);
  }

  lemma DrainTold(q: Buffer, now: real)
    requires Valid(q)
    ensures Told(Drain(q, now).0) == Told(q) && Drain(q, now).0.capacity == q.capacity
  {
    hide DrainLoop;
    if q.started {
      DrainReleases(q, now);
      DrainLoopReleases(q.(priming := false), now);
    } else {
      NoneToDrain(q.(priming := false), now);
    }
  }

  lemma ForceTold(b: Buffer)
    requires Valid(b) && b.started
    ensures Told(ForceFlush(b).0) == Told(b).(overflows := b.stats.overflowFlushes + 1)
  {
    hide FlushLoop, Ascending;
    FlushLoopReleases(b.(priming := false, stats := b.stats.(overflowFlushes := b.stats.overflowFlushes + 1)),
                      |b.held| - b.capacity / 2);
  }

  lemma PushTold(b: Buffer, no: int, payload: Bytes, now: real)
    requires Valid(b) && |b.held| <= b.capacity
    ensures Told(Push(b, no, payload, now).0) == Add(Told(b), OneTally(b, Arrive(no, payload, now)))
  {
    hide Prime, Judge, Accept, Drain, ForceFlush, Valid, Ascending;
    QueuedTold(b, no, payload, now);
    QueuedValid(b, no, payload, now);
    QueuedCounts(b, no, payload, now);
    var q := Queued(b, no, payload, now);
    if Judge(Prime(b, no, now), no) == Accepted {
      DrainTold(q, now);
      DrainReleases(q, now);
      var b2 := Drain(q, now).0;
      if |b2.held| > b2.capacity { ForceTold(b2); }
    }
  }

  lemma NoTally(b: Buffer, ev: Event)
    requires ev.Timer? || ev.Shutdown?
    ensures Add(Told(b), OneTally(b, ev)) == Told(b)
  {
  }

  lemma TimerTold(b: Buffer, now: real)
    requires Valid(b)
    ensures Told(Tick(b, now).0) == Told(b)
  {
    DrainTold(b, now);
  }

  lemma ShutdownTold(b: Buffer)
    requires Valid(b)
    ensures Told(Flush(b).0) == Told(b)
  {
    hide FlushLoop;
    FlushLoopReleases(b.(priming := false), |b.held|);
  }

  lemma ObserveTold(h: History, ev: Event)
    requires InOrder(h)
    ensures Told(Observe(h, ev).buf) == Add(Told(h.buf), OneTally(h.buf, ev))
  {
    hide OneTally, Push, Tick, FlushLoop, Valid;
    match ev
    case Arrive(no, payload, now) => PushTold(h.buf, no, payload, now);
    case Timer(now) =>
      TimerTold(h.buf, now);
      NoTally(h.buf, ev);
    case Shutdown =>
      ShutdownTold(h.buf);
      NoTally(h.buf, ev);
  }

  /** The statistics are the sums over the run, whatever happens in it. */
  lemma {:induction false} StatisticsAreTrue(h: History, evs: seq<Event>)
    requires InOrder(h)
    ensures Told(Run(h, evs).buf) == Add(Told(h.buf), TallyOf(h, evs))
    decreases |evs|
  {
    hide Observe, OneTally, Told, InOrder;
    if evs != [] {
      ObserveInOrder(h, evs[0]);
      ObserveTold(h, evs[0]);
      StatisticsAreTrue(Observe(h, evs[0]), evs[1..]);
    }
  }

  // ----- starting afresh

  /** A reset buffer is a new one of the same size that goes on counting. */
  lemma ResetIsNew(b: Buffer)
    requires Valid(b)
    ensures Reset(b) == NewBuffer(b.timeout * 1000.0, b.capacity, b.memory).(stats := b.stats)
  {
  }

  /** A new buffer keeps its time limit in seconds, no less than none, and holds at least eight packets. */
  lemma NewSizes(timeoutMs: real, capacity: int, memory: Memory)
    ensures var b := NewBuffer(timeoutMs, capacity, memory);
            && 1000.0 * b.timeout == (if timeoutMs < 0.0 then 0.0 else timeoutMs)
            && b.capacity == (if capacity < 8 then 8 else capacity)
            && !b.started && !b.priming && b.held == [] && b.seen == {}
            && Told(b) == Tally(0, 0, 0, 0, 0) && b.stats.delivered == b.stats.gapSkips == 0
  {
  }
}
