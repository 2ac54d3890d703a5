/** The remembered set only decides how a stale packet is counted, never what comes out. */
module Pruning {
  import opened Bytes
  import opened Resequencer
  import opened ReorderRuns

  /** Two buffers that differ at most in what they remember and in how they split stale arrivals. */
  ghost predicate Alike(b: Buffer, c: Buffer) {
    && b.(memory := c.memory, seen := c.seen,
          stats := b.stats.(duplicates := c.stats.duplicates, lateDrops := c.stats.lateDrops)) == c
    && b.stats.duplicates + b.stats.lateDrops == c.stats.duplicates + c.stats.lateDrops
  }

  lemma ReleaseAlike(b: Buffer, c: Buffer)
    requires Alike(b, c) && b.held != []
    ensures Alike(Release(b), Release(c)) && |Release(b).held| < |b.held|
  {
    hide Remember;
  }

  lemma {:induction false} DrainLoopAlike(b: Buffer, c: Buffer, now: real)
    requires Alike(b, c)
    ensures Alike(DrainLoop(b, now).0, DrainLoop(c, now).0) && DrainLoop(b, now).1 == DrainLoop(c, now).1
    decreases |b.held|
  {
    if b.held != [] {
      var head := b.held[0];
      if head.no < b.next {
        DrainLoopAlike(Drop(b), Drop(c), now);
      } else if head.no == b.next {
        ReleaseAlike(b, c);
        hide Release;
        DrainLoopAlike(Release(b), Release(c), now);
      } else if now >= head.deadline {
        var b0, c0 := CountGap(b, head.no - b.next), CountGap(c, head.no - b.next);
        ReleaseAlike(b0, c0);
        hide Release;
        DrainLoopAlike(Release(b0), Release(c0), now);
      }
    }
  }

  lemma {:induction false} FlushLoopAlike(b: Buffer, c: Buffer, target: int)
    requires Alike(b, c)
    ensures Alike(FlushLoop(b, target).0, FlushLoop(c, target).0) && FlushLoop(b, target).1 == FlushLoop(c, target).1
    decreases |b.held|
  {
    if b.held != [] && target > 0 {
      if b.held[0].no < b.next {
        FlushLoopAlike(Drop(b), Drop(c), target - 1);
      } else {
        ReleaseAlike(b, c);
        hide Release;
        FlushLoopAlike(Release(b), Release(c), target - 1);
      }
    }
  }

  lemma DrainAlike(b: Buffer, c: Buffer, now: real)
    requires Alike(b, c)
    ensures Alike(Drain(b, now).0, Drain(c, now).0) && Drain(b, now).1 == Drain(c, now).1
  {
    DrainLoopAlike(b.(priming := false), c.(priming := false), now);
    hide DrainLoop;
  }

  lemma ForceFlushAlike(b: Buffer, c: Buffer)
    requires Alike(b, c)
    ensures Alike(ForceFlush(b).0, ForceFlush(c).0) && ForceFlush(b).1 == ForceFlush(c).1
  {
    var b0 := b.(priming := false, stats := b.stats.(overflowFlushes := b.stats.overflowFlushes + 1));
    var c0 := c.(priming := false, stats := c.stats.(overflowFlushes := c.stats.overflowFlushes + 1));
    FlushLoopAlike(b0, c0, |b.held| - b.capacity / 2);
    hide FlushLoop;
  }

  /** Both buffers let the same packets in: a remembered number is below the position, so it is stale either way. */
  lemma JudgeAlike(b: Buffer, c: Buffer, no: int, now: real)
    requires Alike(b, c) && Valid(b) && Valid(c)
    ensures var b1, c1 := Prime(b, no, now), Prime(c, no, now);
            && Alike(b1, c1)
            && (Judge(b1, no) == Accepted <==> Judge(c1, no) == Accepted)
  {
    PrimeValid(b, no, now);
    PrimeValid(c, no, now);
  }

  lemma AcceptAlike(b: Buffer, c: Buffer, e: Entry)
    requires Alike(b, c)
    ensures Alike(Accept(b, e), Accept(c, e))
  {
    hide Insert;
  }

  lemma StaleAlike(b: Buffer, c: Buffer)
    requires Alike(b, c)
    ensures b.timeout == c.timeout
    ensures var b1, c1 := b.(stats := b.stats.(duplicates := b.stats.duplicates + 1)),
                          c.(stats := c.stats.(duplicates := c.stats.duplicates + 1));
            var b2, c2 := b.(stats := b.stats.(lateDrops := b.stats.lateDrops + 1)),
                          c.(stats := c.stats.(lateDrops := c.stats.lateDrops + 1));
            Alike(b1, c1) && Alike(b1, c2) && Alike(b2, c1) && Alike(b2, c2)
  {
  }

  lemma AcceptedAlike(b: Buffer, c: Buffer, e: Entry, now: real)
    requires Alike(b, c)
    ensures var (b1, c1) := (Drain(Accept(b, e), now), Drain(Accept(c, e), now));
            && Alike(b1.0, c1.0) && b1.1 == c1.1 && b1.0.held == c1.0.held && b1.0.capacity == c1.0.capacity
            && Alike(ForceFlush(b1.0).0, ForceFlush(c1.0).0) && ForceFlush(b1.0).1 == ForceFlush(c1.0).1
  {
    hide Accept, Drain, ForceFlush;
    AcceptAlike(b, c, e);
    DrainAlike(Accept(b, e), Accept(c, e), now);
    ForceFlushAlike(Drain(Accept(b, e), now).0, Drain(Accept(c, e), now).0);
  }

  lemma PushAlike(b: Buffer, c: Buffer, no: int, payload: Bytes, now: real)
    requires Alike(b, c) && Valid(b) && Valid(c)
    ensures Alike(Push(b, no, payload, now).0, Push(c, no, payload, now).0)
    ensures Push(b, no, payload, now).1 == Push(c, no, payload, now).1
  {
    hide Alike, Prime, Valid, Judge, Accept, Drain, ForceFlush;
    JudgeAlike(b, c, no, now);
    var b1, c1 := Prime(b, no, now), Prime(c, no, now);
    StaleAlike(b1, c1);
    AcceptedAlike(b1, c1, Entry(no, payload, now + b1.timeout), now);
  }

  lemma ApplyAlike(b: Buffer, c: Buffer, ev: Event)
    requires Alike(b, c) && Valid(b) && Valid(c)
    ensures Alike(Apply(b, ev).0, Apply(c, ev).0) && Apply(b, ev).1 == Apply(c, ev).1
  {
    hide Push, Drain, FlushLoop, Valid;
    match ev
    case Arrive(no, payload, now) => PushAlike(b, c, no, payload, now);
    case Timer(now) => DrainAlike(b, c, now);
    case Shutdown => FlushLoopAlike(b.(priming := false), c.(priming := false), |b.held|);
  }

  lemma {:induction false} RunsAlike(g: History, h: History, evs: seq<Event>)
    requires Alike(g.buf, h.buf) && g.released == h.released && InOrder(g) && InOrder(h)
    ensures Alike(Run(g, evs).buf, Run(h, evs).buf) && Run(g, evs).released == Run(h, evs).released
    decreases |evs|
  {
    if evs != [] {
      ApplyAlike(g.buf, h.buf, evs[0]);
      ObserveInOrder(g, evs[0]);
      ObserveInOrder(h, evs[0]);
      hide Apply, InOrder, Alike;
      RunsAlike(Observe(g, evs[0]), Observe(h, evs[0]), evs[1..]);
    }
  }

  /**
   Pruning is invisible.  On every run the buffer that prunes its memory, one that never forgets and one with
   no memory at all release the same packets and hold the same packets; only the duplicate / late split differs,
   and its sum does not.  The pruned memory never exceeds four capacities.
   */
  lemma {:induction false} PruningIsInvisible(timeoutMs: real, capacity: int, other: Memory, evs: seq<Event>)
    ensures var g := Run(Start(NewBuffer(timeoutMs, capacity, Pruned)), evs);
            var h := Run(Start(NewBuffer(timeoutMs, capacity, other)), evs);
            && g.released == h.released && g.buf.held == h.buf.held && g.buf.next == h.buf.next
            && g.buf.stats.duplicates + g.buf.stats.lateDrops == h.buf.stats.duplicates + h.buf.stats.lateDrops
            && |g.buf.seen| <= 4 * g.buf.capacity
  {
    var g0, h0 := Start(NewBuffer(timeoutMs, capacity, Pruned)), Start(NewBuffer(timeoutMs, capacity, other));
    RunsAlike(g0, h0, evs);
    RunInvariant(g0, evs);
    RunKeepsMemory(g0, evs);
  }
}
