/**
 How long one packet can be held.  The clock never runs backwards, and packets arrive at any time between two passes
 of the ticker, but never more than `period` after the last one.  Priming is over throughout.
 */
module ReorderTiming {
  import opened Bytes
  import opened Resequencer
  import opened ReorderRuns

  // ----- runs in time

  /** When the ticker last ran, and when anything last happened. */
  datatype Clock = Clock(tick: real, now: real)

  /** The event can come next: time goes on, and an arrival is at most a period away from the last tick. */
  predicate Follows(c: Clock, ev: Event, period: real) {
    match ev
    case Timer(now) => c.now <= now
    case Arrive(_, _, now) => c.now <= now <= c.tick + period
    case Shutdown => false
  }

  function Next(c: Clock, ev: Event): Clock {
    match ev
    case Timer(now) => Clock(now, now)
    case Arrive(_, _, now) => Clock(c.tick, now)
    case Shutdown => c
  }

  predicate Paced(c: Clock, evs: seq<Event>, period: real)
    decreases |evs|
  {
    evs == [] || (Follows(c, evs[0], period) && Paced(Next(c, evs[0]), evs[1..], period))
  }

  function Last(c: Clock, evs: seq<Event>): Clock
    decreases |evs|
  {
    if evs == [] then c else Last(Next(c, evs[0]), evs[1..])
  }

  function Step(b: Buffer, ev: Event): Buffer {
    Apply(b, ev).0
  }

  function After(b: Buffer, evs: seq<Event>): Buffer
    decreases |evs|
  {
    if evs == [] then b else After(Step(b, evs[0]), evs[1..])
  }

  /** What the packet's arrival at t0 starts: a clock that counts the next tick from there. */
  function From(t0: real): Clock {
    Clock(t0, t0)
  }

  /** Every deadline was set no later than `clock`. */
  ghost predicate Fresh(held: seq<Entry>, timeout: real, clock: real) {
    forall i :: 0 <= i < |held| ==> held[i].deadline <= clock + timeout
  }

  ghost predicate Live(b: Buffer, clock: real) {
    Valid(b) && b.started && !b.priming && |b.held| <= b.capacity && Fresh(b.held, b.timeout, clock)
  }

  // ----- the queue as positions: entry i has `Missing(i)` numbers still absent below it

  function Missing(held: seq<Entry>, next: int, i: nat): int
    requires i < |held|
  {
    held[i].no - next - i
  }

  /** The time by which a deadline can still be set once `left` of the missing numbers have been waited out. */
  function Allowance(timeout: real, period: real, t0: real, left: int): real {
    t0 + timeout + left as real * (timeout + period)
  }

  /** m timeouts, and a ticker period between each two of them. */
  function StallLimit(m: int, timeout: real, period: real): real {
    m as real * timeout + (m - 1) as real * period
  }

  lemma AllowanceGrows(timeout: real, period: real, t0: real, left: int, left': int)
    requires timeout >= 0.0 && period >= 0.0 && left <= left'
    ensures Allowance(timeout, period, t0, left) <= Allowance(timeout, period, t0, left')
    ensures left < left' ==>
              Allowance(timeout, period, t0, left) + timeout + period <= Allowance(timeout, period, t0, left')
  {
    if left < left' {
      var w, d := timeout + period, left' as real - left as real - 1.0;
      assert d * w >= 0.0;
      assert left' as real == left as real + 1.0 + d;
      assert left' as real * w == left as real * w + w + d * w;
    }
  }

  /**
   Of the m numbers missing below the packet when it was accepted at t0 some still are.  Whatever stands in the
   queue up to the packet has its deadline within the allowance for those waited out, and so was the last tick.
   */
  ghost predicate Waits(b: Buffer, no: int, i: nat, tick: real, period: real, t0: real, m: int) {
    && i < |b.held| && b.held[i].no == no
    && var limit := Allowance(b.timeout, period, t0, m - Missing(b.held, b.next, i));
       && Missing(b.held, b.next, i) <= m && tick <= limit
       && forall j :: 0 <= j <= i ==> b.held[j].deadline <= limit
  }

  /** Once the stream has moved past a number it is never held again. */
  ghost predicate Gone(b: Buffer, no: int) {
    no < b.next
  }

  ghost predicate Watched(b: Buffer, no: int, tick: real, period: real, t0: real, m: int) {
    Gone(b, no) || exists i: nat :: Waits(b, no, i, tick, period, t0, m)
  }

  /** Releasing a prefix can only leave fewer numbers missing below whatever stays. */
  lemma WaitsAfterRelease(q: Buffer, b: Buffer, out: seq<Entry>, no: int, i: nat, tick: real, period: real, t0: real,
                          m: int)
    requires Valid(q) && Releases(q, b, out) && Waits(q, no, i, tick, period, t0, m) && |out| <= i && period >= 0.0
    ensures Waits(b, no, i - |out|, tick, period, t0, m)
  {
    var n := |out|;
    assert b.held == q.held[n..];
    if n > 0 {
      assert q.held[n - 1] == out[n - 1];
      Spread(q.held, n - 1);
    }
    hide Allowance, Ascending, Valid;
    var mu, mu' := Missing(q.held, q.next, i), Missing(b.held, b.next, i - n);
    assert mu' <= mu;
    AllowanceGrows(q.timeout, period, t0, m - mu, m - mu');
  }

  lemma ReleaseWatched(q: Buffer, b: Buffer, out: seq<Entry>, no: int, tick: real, period: real, t0: real, m: int)
    requires Valid(q) && Releases(q, b, out) && Watched(q, no, tick, period, t0, m) && period >= 0.0
    ensures Watched(b, no, tick, period, t0, m)
  {
    if out != [] { assert q.held[|out| - 1] == out[|out| - 1]; }
    if !Gone(q, no) {
      var i: nat :| Waits(q, no, i, tick, period, t0, m);
      if i < |out| {
        assert q.held[i] == out[i];
      } else {
        WaitsAfterRelease(q, b, out, no, i, tick, period, t0, m);
      }
    }
  }

  lemma WaitsPastNewcomer(b: Buffer, b': Buffer, e: Entry, k: nat, i: nat, no: int, tick: real, period: real, t0: real,
                          m: int)
    requires Waits(b, no, i, tick, period, t0, m) && k <= i
    requires b' == b.(held := b.held[..k] + [e] + b.held[k..])
    requires var limit := Allowance(b.timeout, period, t0, m - Missing(b.held, b.next, i));
             var limit' := Allowance(b.timeout, period, t0, m - Missing(b.held, b.next, i) + 1);
             limit <= limit' && e.deadline <= limit'
    ensures Waits(b', no, i + 1, tick, period, t0, m)
  {
    hide Allowance;
    forall j | 0 <= j <= i + 1
      ensures b'.held[j].deadline <= Allowance(b.timeout, period, t0, m - Missing(b.held, b.next, i) + 1)
    {
      assert b'.held[j] == if j < k then b.held[j] else if j == k then e else b.held[j - 1];
    }
    assert b'.held[i + 1] == b.held[i];
  }

  /** A newcomer below the watched packet fills one of its missing numbers; one above changes nothing for it. */
  lemma {:induction false} WaitsAfterInsert(b: Buffer, e: Entry, i: nat, no: int, tick: real, now: real,
                                            period: real, t0: real, m: int)
    requires Valid(b) && Waits(b, no, i, tick, period, t0, m) && period >= 0.0
    requires Judge(b, e.no) == Accepted && now <= tick + period && e.deadline == now + b.timeout
    ensures exists i': nat :: Waits(b.(held := Insert(b.held, e)), no, i', tick, period, t0, m)
  {
    InsertAscending(b.held, e);
    var k := Slot(b.held, e.no);
    hide Insert, Slot, Judge, Ascending, Allowance, Valid, Holds;
    var b' := b.(held := Insert(b.held, e));
    if k <= i {
      var mu := Missing(b.held, b.next, i);
      AllowanceGrows(b.timeout, period, t0, m - mu, m - mu + 1);
      WaitsPastNewcomer(b, b', e, k, i, no, tick, period, t0, m);
    } else {
      assert forall j :: 0 <= j <= i ==> b'.held[j] == b.held[j];
      assert Waits(b', no, i, tick, period, t0, m);
    }
  }

  lemma QueuedWatched(b: Buffer, no': int, payload: Bytes, now: real, no: int, tick: real, period: real, t0: real,
                      m: int)
    requires Live(b, now) && Watched(b, no, tick, period, t0, m) && now <= tick + period && period >= 0.0
    ensures Watched(Queued(b, no', payload, now), no, tick, period, t0, m)
  {
    if !Gone(b, no) {
      var i: nat :| Waits(b, no, i, tick, period, t0, m);
      var q := Queued(b, no', payload, now);
      if Judge(b, no') == Accepted {
        var e := Entry(no', payload, now + b.timeout);
        WaitsAfterInsert(b, e, i, no, tick, now, period, t0, m);
        hide Insert, Judge, Valid;
        var i': nat :| Waits(b.(held := Insert(b.held, e)), no, i', tick, period, t0, m);
        assert Waits(q, no, i', tick, period, t0, m);
      } else {
        assert Waits(q, no, i, tick, period, t0, m);
      }
    }
  }

  lemma LastAllowance(timeout: real, period: real, t0: real, m: int)
    ensures Allowance(timeout, period, t0, m - 1) == t0 + StallLimit(m, timeout, period)
  {
    var n := m as real - 1.0;
    assert n * (timeout + period) == n * timeout + n * period;
    assert m as real * timeout == n * timeout + timeout;
  }

  /** After a tick whatever is held waits for a head that has not expired, so the tick is within the allowance too. */
  lemma QuietWatched(b: Buffer, now: real, no: int, tick: real, period: real, t0: real, m: int)
    requires Valid(b) && Quiet(b, now) && Watched(b, no, tick, period, t0, m) && period >= 0.0
    ensures Watched(b, no, now, period, t0, m)
    ensures Holds(b.held, no) ==> now - t0 < StallLimit(m, b.timeout, period)
  {
    if !Gone(b, no) {
      var i: nat :| Waits(b, no, i, tick, period, t0, m);
      assert Waits(b, no, i, now, period, t0, m);
      Spread(b.held, i);
      AllowanceGrows(b.timeout, period, t0, m - Missing(b.held, b.next, i), m - 1);
      LastAllowance(b.timeout, period, t0, m);
    }
  }

  // ----- one event

  lemma TickLive(b: Buffer, clock: real, now: real)
    requires Live(b, clock) && clock <= now
    ensures var (b', out) := Tick(b, now);
            Live(b', clock) && Live(b', now) && Releases(b, b', out) && Quiet(b', now)
  {
    TickReleases(b, now);
    var (b', out) := Tick(b, now);
    hide Tick, Quiet, Valid;
    assert forall i :: 0 <= i < |b'.held| ==> b'.held[i] == b.held[|out| + i];
  }

  lemma QueuedFresh(b: Buffer, no: int, payload: Bytes, now: real)
    requires Live(b, now)
    ensures Fresh(Queued(b, no, payload, now).held, b.timeout, now)
  {
    InsertMembers(b.held, Entry(no, payload, now + b.timeout));
    hide Insert, Holds, Valid;
  }

  lemma PushLive(b: Buffer, no: int, payload: Bytes, now: real)
    requires Live(b, now)
    ensures var (b', out) := Push(b, no, payload, now);
            var q := Queued(b, no, payload, now);
            && Live(b', now) && Valid(q) && Releases(q, b', out) && Fresh(q.held, q.timeout, now)
            && b'.timeout == b.timeout
  {
    hide Push, Insert, Slot;
    PushReleases(b, no, payload, now);
    QueuedValid(b, no, payload, now);
    QueuedFresh(b, no, payload, now);
    var (b', out) := Push(b, no, payload, now);
    var q := Queued(b, no, payload, now);
    QueuedCounts(b, no, payload, now);
    hide Judge, Valid, Queued, Holds;
    assert forall i :: 0 <= i < |b'.held| ==> b'.held[i] == q.held[|out| + i];
  }

  lemma Later(b: Buffer, clock: real, now: real)
    requires Live(b, clock) && clock <= now
    ensures Live(b, now)
  {
  }

  lemma QueuedTimeout(b: Buffer, no: int, payload: Bytes, now: real)
    ensures Queued(b, no, payload, now).timeout == b.timeout
  {
    hide Judge, Insert;
  }

  lemma StepLive(b: Buffer, ev: Event, c: Clock, period: real)
    requires Live(b, c.now) && Follows(c, ev, period)
    ensures Live(Step(b, ev), Next(c, ev).now) && Step(b, ev).timeout == b.timeout
  {
    hide Live, Tick, Push;
    match ev
    case Timer(now) => TickLive(b, c.now, now);
    case Arrive(no, payload, now) =>
      Later(b, c.now, now);
      PushLive(b, no, payload, now);
      QueuedTimeout(b, no, payload, now);
  }

  lemma TickWatched(b: Buffer, c: Clock, now: real, no: int, period: real, t0: real, m: int)
    requires Live(b, c.now) && c.now <= now && Watched(b, no, c.tick, period, t0, m) && period >= 0.0
    ensures var b' := Tick(b, now).0;
            && Watched(b', no, now, period, t0, m) && b'.timeout == b.timeout
            && (Holds(b'.held, no) ==> now - t0 < StallLimit(m, b.timeout, period))
  {
    TickLive(b, c.now, now);
    hide Tick, Valid, Watched, Quiet, Fresh;
    var (b', out) := Tick(b, now);
    ReleaseWatched(b, b', out, no, c.tick, period, t0, m);
    QuietWatched(b', now, no, c.tick, period, t0, m);
  }

  lemma StepWatched(b: Buffer, ev: Event, c: Clock, no: int, period: real, t0: real, m: int)
    requires Live(b, c.now) && Follows(c, ev, period) && Watched(b, no, c.tick, period, t0, m) && period >= 0.0
    ensures Watched(Step(b, ev), no, Next(c, ev).tick, period, t0, m)
  {
    hide Tick, Push, Watched, Queued, Live;
    match ev
    case Timer(now) => TickWatched(b, c, now, no, period, t0, m);
    case Arrive(no', payload, now) =>
      Later(b, c.now, now);
      PushLive(b, no', payload, now);
      QueuedWatched(b, no', payload, now, no, c.tick, period, t0, m);
      ReleaseWatched(Queued(b, no', payload, now), Push(b, no', payload, now).0, Push(b, no', payload, now).1, no,
                     c.tick, period, t0, m);
  }

  lemma {:induction false} AfterWatched(b: Buffer, evs: seq<Event>, c: Clock, no: int, period: real, t0: real, m: int)
    requires Live(b, c.now) && Paced(c, evs, period) && Watched(b, no, c.tick, period, t0, m) && period >= 0.0
    ensures Live(After(b, evs), Last(c, evs).now) && Watched(After(b, evs), no, Last(c, evs).tick, period, t0, m)
    ensures After(b, evs).timeout == b.timeout
    decreases |evs|
  {
    hide Live, Watched, Step, Follows;
    if evs != [] {
      StepLive(b, evs[0], c, period);
      StepWatched(b, evs[0], c, no, period, t0, m);
      AfterWatched(Step(b, evs[0]), evs[1..], Next(c, evs[0]), no, period, t0, m);
    }
  }

  lemma {:induction false} AcceptedWatched(b: Buffer, no: int, payload: Bytes, t0: real, period: real)
    requires Live(b, t0) && Judge(b, no) == Accepted && period >= 0.0
    ensures Watched(Queued(b, no, payload, t0), no, t0, period, t0, no - b.next - Slot(b.held, no))
  {
    var e := Entry(no, payload, t0 + b.timeout);
    var q := Queued(b, no, payload, t0);
    InsertAscending(b.held, e);
    QueuedFresh(b, no, payload, t0);
    var k := Slot(b.held, no);
    assert q.held[k] == e;
    hide Insert, Slot, Judge, Ascending;
    assert Waits(q, no, k, t0, period, t0, no - b.next - k);
  }

  lemma {:induction false} PushWatched(b: Buffer, no: int, payload: Bytes, t0: real, period: real)
    requires Live(b, t0) && Judge(b, no) == Accepted && period >= 0.0
    ensures var b1 := Push(b, no, payload, t0).0;
            && Live(b1, t0) && b1.timeout == b.timeout
            && Watched(b1, no, t0, period, t0, no - b.next - Slot(b.held, no))
  {
    hide Push, Queued, Slot, Live, Valid, Watched, Judge, Releases, Fresh;
    AcceptedWatched(b, no, payload, t0, period);
    PushLive(b, no, payload, t0);
    var (b1, out) := Push(b, no, payload, t0);
    ReleaseWatched(Queued(b, no, payload, t0), b1, out, no, t0, period, t0, no - b.next - Slot(b.held, no));
  }

  lemma TimerStep(b: Buffer, t: real)
    ensures Step(b, Timer(t)) == Tick(b, t).0
  {
  }

  /** A run that ends in a tick is the run before it, and then the tick. */
  lemma {:induction false} SplitRun(b: Buffer, c: Clock, evs: seq<Event>, t: real, period: real)
    requires Paced(c, evs + [Timer(t)], period)
    ensures Paced(c, evs, period) && Follows(Last(c, evs), Timer(t), period)
    ensures After(b, evs + [Timer(t)]) == Tick(After(b, evs), t).0
    decreases |evs|
  {
    hide Step;
    var all := evs + [Timer(t)];
    if evs == [] {
      assert all == [Timer(t)] && all[1..] == [];
      assert Step(b, Timer(t)) == Tick(b, t).0 by { TimerStep(b, t); }
      assert After(Step(b, Timer(t)), []) == Step(b, Timer(t));
    } else {
      assert all[0] == evs[0] && all[1..] == evs[1..] + [Timer(t)];
      SplitRun(Step(b, evs[0]), Next(c, evs[0]), evs[1..], t, period);
    }
  }

  /** The bound for any packet that is being watched, from whenever on. */
  lemma {:induction false} WatchedBound(b: Buffer, no: int, t0: real, evs: seq<Event>, t: real, period: real, m: int)
    requires Live(b, t0) && Watched(b, no, t0, period, t0, m) && period >= 0.0
    requires Paced(From(t0), evs + [Timer(t)], period)
    ensures Holds(After(b, evs + [Timer(t)]).held, no) ==> t - t0 < StallLimit(m, b.timeout, period)
  {
    hide Tick, Live, Watched, Holds, Paced, After, Last, StallLimit;
    SplitRun(b, From(t0), evs, t, period);
    AfterWatched(b, evs, From(t0), no, period, t0, m);
    TickWatched(After(b, evs), Last(From(t0), evs), t, no, period, t0, m);
  }

  /**
   The stall bound.  A packet accepted at t0 while m numbers below it are missing is still held after a ticker pass
   at t only if less than m timeouts and m - 1 ticker periods have gone by, whatever arrives in between and when.
   */
  lemma {:induction false} StallBound(b: Buffer, no: int, payload: Bytes, t0: real, evs: seq<Event>, t: real,
                                      period: real)
    requires Live(b, t0) && Judge(b, no) == Accepted && period >= 0.0
    requires Paced(From(t0), evs + [Timer(t)], period)
    ensures var m := no - b.next - Slot(b.held, no);
            var later := After(Push(b, no, payload, t0).0, evs + [Timer(t)]);
            Holds(later.held, no) ==> t - t0 < StallLimit(m, b.timeout, period)
  {
    hide Push, Slot, Live, Watched, Judge, Holds, Paced, After, StallLimit;
    PushWatched(b, no, payload, t0, period);
    WatchedBound(Push(b, no, payload, t0).0, no, t0, evs, t, period, no - b.next - Slot(b.held, no));
  }

  lemma {:induction false} AfterLive(b: Buffer, evs: seq<Event>, c: Clock, period: real)
    requires Live(b, c.now) && Paced(c, evs, period)
    ensures Live(After(b, evs), Last(c, evs).now) && After(b, evs).timeout == b.timeout
    decreases |evs|
  {
    hide Live, Step, Follows;
    if evs != [] {
      StepLive(b, evs[0], c, period);
      AfterLive(Step(b, evs[0]), evs[1..], Next(c, evs[0]), period);
    }
  }

  // ----- the states these results start from are the ones that are reached

  ghost predicate Clocked(b: Buffer, clock: real) {
    Valid(b) && |b.held| <= b.capacity && Fresh(b.held, b.timeout, clock)
  }

  lemma ReleaseFresh(q: Buffer, b: Buffer, out: seq<Entry>, clock: real)
    requires Releases(q, b, out) && Fresh(q.held, q.timeout, clock)
    ensures Fresh(b.held, b.timeout, clock)
  {
    assert forall i :: 0 <= i < |b.held| ==> b.held[i] == q.held[|out| + i];
  }

  lemma QueuedClocked(b: Buffer, no: int, payload: Bytes, now: real)
    requires Clocked(b, now)
    ensures Fresh(Queued(b, no, payload, now).held, Queued(b, no, payload, now).timeout, now)
  {
    PrimeValid(b, no, now);
    var b1 := Prime(b, no, now);
    assert b1.timeout == b.timeout;
    InsertMembers(b1.held, Entry(no, payload, now + b1.timeout));
    hide Prime, Insert, Judge, Valid;
  }

  lemma StepClocked(b: Buffer, ev: Event, c: Clock, period: real)
    requires Clocked(b, c.now) && Follows(c, ev, period)
    ensures Clocked(Step(b, ev), Next(c, ev).now)
  {
    hide Tick, Push, Queued, Valid;
    match ev
    case Timer(now) =>
      TickReleases(b, now);
      ReleaseFresh(b, Tick(b, now).0, Tick(b, now).1, now);
    case Arrive(no, payload, now) =>
      assert Clocked(b, now);
      PushReleases(b, no, payload, now);
      QueuedClocked(b, no, payload, now);
      ReleaseFresh(Queued(b, no, payload, now), Push(b, no, payload, now).0, Push(b, no, payload, now).1, now);
  }

  lemma {:induction false} AfterClocked(b: Buffer, evs: seq<Event>, c: Clock, period: real)
    requires Clocked(b, c.now) && Paced(c, evs, period)
    ensures Clocked(After(b, evs), Last(c, evs).now)
    decreases |evs|
  {
    hide Clocked, Step, Follows;
    if evs != [] {
      StepClocked(b, evs[0], c, period);
      AfterClocked(Step(b, evs[0]), evs[1..], Next(c, evs[0]), period);
    }
  }

  /** Any paced run of a new buffer, once primed, is in a state the timing results start from. */
  lemma {:induction false} ReachableLive(timeoutMs: real, capacity: int, evs: seq<Event>, c: Clock, period: real)
    requires Paced(c, evs, period)
    ensures var b := After(NewBuffer(timeoutMs, capacity), evs); b.started && !b.priming ==> Live(b, Last(c, evs).now)
  {
    AfterClocked(NewBuffer(timeoutMs, capacity), evs, c, period);
    hide After, Paced, NewBuffer;
  }
}
