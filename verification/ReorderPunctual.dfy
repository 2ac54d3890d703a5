/**
 When the documented single timeout really holds.  A gap of two or more numbers lets a late newcomer become the
 new head with a fresh deadline; gaps of one number cannot.  So a packet is certain to leave within one timeout
 exactly when no two neighbouring numbers below it are both missing.
 */
module ReorderPunctual {
  import opened Bytes
  import opened Resequencer
  import opened ReorderRuns
  import opened ReorderTiming

  /** What a caller can check when the packet is accepted: no two neighbours in [next, no) are both absent. */
  ghost predicate NoWideGap(held: seq<Entry>, next: int, no: int) {
    forall q {:trigger Holds(held, q)} :: next <= q && q + 1 < no ==> Holds(held, q) || Holds(held, q + 1)
  }

  /** The number just before entry i: its predecessor in the queue, or the last one delivered. */
  function Before(held: seq<Entry>, next: int, i: nat): int
    requires i < |held|
  {
    if i == 0 then next - 1 else held[i - 1].no
  }

  /** The gap in front of entry j is at most one number wide, and if there is one the deadline is within `limit`. */
  predicate NarrowGap(held: seq<Entry>, next: int, j: nat, limit: real)
    requires j < |held|
  {
    var gap := held[j].no - Before(held, next, j);
    gap <= 2 && (gap == 2 ==> held[j].deadline <= limit)
  }

  ghost predicate Narrow(held: seq<Entry>, next: int, i: nat, limit: real) {
    i < |held| && forall j: nat :: j <= i ==> NarrowGap(held, next, j, limit)
  }

  ghost predicate NarrowAt(b: Buffer, no: int, i: nat, limit: real) {
    i < |b.held| && b.held[i].no == no && Narrow(b.held, b.next, i, limit)
  }

  ghost predicate Punctual(b: Buffer, no: int, limit: real) {
    Gone(b, no) || exists i: nat :: NarrowAt(b, no, i, limit)
  }

  lemma ShiftNarrow(q: Buffer, b: Buffer, out: seq<Entry>, i: nat, limit: real)
    requires Releases(q, b, out) && Narrow(q.held, q.next, i, limit) && |out| <= i
    ensures Narrow(b.held, b.next, i - |out|, limit) && b.held[i - |out|] == q.held[i]
  {
    var n := |out|;
    if n > 0 { assert q.held[n - 1] == out[n - 1]; }
    forall j: nat | j <= i - n ensures NarrowGap(b.held, b.next, j, limit) {
      assert NarrowGap(q.held, q.next, j + n, limit);
      assert b.held[j] == q.held[j + n];
      if j > 0 { assert b.held[j - 1] == q.held[j - 1 + n]; }
    }
  }

  lemma ReleasePunctual(q: Buffer, b: Buffer, out: seq<Entry>, no: int, limit: real)
    requires Valid(q) && Releases(q, b, out) && Punctual(q, no, limit)
    ensures Punctual(b, no, limit)
  {
    if out != [] { assert q.held[|out| - 1] == out[|out| - 1]; }
    if !Gone(q, no) {
      var i: nat :| NarrowAt(q, no, i, limit);
      if i < |out| {
        assert q.held[i] == out[i];
      } else {
        ShiftNarrow(q, b, out, i, limit);
        assert NarrowAt(b, no, i - |out|, limit);
      }
    }
  }

  function Inserted(held: seq<Entry>, e: Entry, k: nat): seq<Entry>
    requires k <= |held|
  {
    held[..k] + [e] + held[k..]
  }

  lemma InsertNarrowAt(held: seq<Entry>, next: int, e: Entry, k: nat, i: nat, j: nat, limit: real)
    requires Narrow(held, next, i, limit) && k <= i && j <= i + 1
    requires next <= e.no < held[k].no && (k > 0 ==> held[k - 1].no < e.no)
    ensures NarrowGap(Inserted(held, e, k), next, j, limit)
  {
    var held' := Inserted(held, e, k);
    assert NarrowGap(held, next, k, limit);
    if j < k {
      assert NarrowGap(held, next, j, limit);
      assert held'[j] == held[j] && (j > 0 ==> held'[j - 1] == held[j - 1]);
    } else if j > k {
      assert NarrowGap(held, next, j - 1, limit);
      assert held'[j] == held[j - 1] && held'[j - 1] == if j == k + 1 then e else held[j - 2];
    } else {
      assert held'[k] == e && (k > 0 ==> held'[k - 1] == held[k - 1]);
    }
  }

  /** A newcomer that lands in a one-number gap closes it, so it never stands behind a gap itself. */
  lemma InsertNarrow(held: seq<Entry>, next: int, e: Entry, k: nat, i: nat, limit: real)
    requires Narrow(held, next, i, limit) && k <= i && Ascending(held)
    requires next <= e.no < held[k].no && (k > 0 ==> held[k - 1].no < e.no)
    ensures Narrow(Inserted(held, e, k), next, i + 1, limit)
  {
    var held' := Inserted(held, e, k);
    forall j: nat | j <= i + 1 ensures NarrowGap(held', next, j, limit) {
      InsertNarrowAt(held, next, e, k, i, j, limit);
    }
  }

  /** A newcomer behind the watched packet leaves the gaps in front of it alone. */
  lemma InsertBehind(held: seq<Entry>, next: int, e: Entry, k: nat, i: nat, limit: real)
    requires Narrow(held, next, i, limit) && i < k <= |held|
    ensures Narrow(Inserted(held, e, k), next, i, limit)
  {
    var held' := Inserted(held, e, k);
    forall j: nat | j <= i ensures NarrowGap(held', next, j, limit) {
      assert NarrowGap(held, next, j, limit);
      assert held'[j] == held[j] && (j > 0 ==> held'[j - 1] == held[j - 1]);
    }
  }

  lemma HeldPunctual(b: Buffer, now: real, no: int, limit: real)
    requires Valid(b) && Quiet(b, now) && Punctual(b, no, limit) && Holds(b.held, no)
    ensures now < limit
  {
    assert !Gone(b, no);
    var i: nat :| NarrowAt(b, no, i, limit);
    assert NarrowGap(b.held, b.next, 0, limit);
  }

  lemma TickPunctual(b: Buffer, clock: real, now: real, no: int, limit: real)
    requires Live(b, clock) && clock <= now && Punctual(b, no, limit)
    ensures var b' := Tick(b, now).0;
            Live(b', now) && Quiet(b', now) && Punctual(b', no, limit) && (Holds(b'.held, no) ==> now < limit)
  {
    TickLive(b, clock, now);
    hide Tick, Punctual, Holds;
    var (b', out) := Tick(b, now);
    ReleasePunctual(b, b', out, no, limit);
    if Holds(b'.held, no) { HeldPunctual(b', now, no, limit); }
  }

  lemma QueuedPunctual(b: Buffer, no': int, payload: Bytes, now: real, no: int, limit: real)
    requires Valid(b) && b.started && !b.priming && Punctual(b, no, limit)
    ensures Punctual(Queued(b, no', payload, now), no, limit)
  {
    var q := Queued(b, no', payload, now);
    if !Gone(b, no) {
      var i: nat :| NarrowAt(b, no, i, limit);
      if Judge(b, no') == Accepted {
        var e := Entry(no', payload, now + b.timeout);
        InsertAscending(b.held, e);
        var k := Slot(b.held, no');
        hide Insert, Slot, Narrow, Ascending;
        assert q.held == Inserted(b.held, e, k);
        if k <= i {
          InsertNarrow(b.held, b.next, e, k, i, limit);
          assert NarrowAt(q, no, i + 1, limit);
        } else {
          InsertBehind(b.held, b.next, e, k, i, limit);
          assert NarrowAt(q, no, i, limit);
        }
      } else {
        assert NarrowAt(q, no, i, limit);
      }
    }
  }

  lemma StepPunctual(b: Buffer, ev: Event, c: Clock, period: real, no: int, limit: real)
    requires Live(b, c.now) && Follows(c, ev, period) && Punctual(b, no, limit)
    ensures Punctual(Step(b, ev), no, limit)
  {
    hide Tick, Push, Punctual, Queued;
    match ev
    case Timer(now) => TickPunctual(b, c.now, now, no, limit);
    case Arrive(no', payload, now) =>
      Later(b, c.now, now);
      QueuedPunctual(b, no', payload, now, no, limit);
      PushLive(b, no', payload, now);
      var (b', out) := Push(b, no', payload, now);
      ReleasePunctual(Queued(b, no', payload, now), b', out, no, limit);
  }

  lemma {:induction false} AfterPunctual(b: Buffer, evs: seq<Event>, c: Clock, period: real, no: int, limit: real)
    requires Live(b, c.now) && Paced(c, evs, period) && Punctual(b, no, limit)
    ensures Live(After(b, evs), Last(c, evs).now) && Punctual(After(b, evs), no, limit)
    decreases |evs|
  {
    hide Live, Punctual, Step, Follows;
    if evs != [] {
      StepLive(b, evs[0], c, period);
      StepPunctual(b, evs[0], c, period, no, limit);
      AfterPunctual(Step(b, evs[0]), evs[1..], Next(c, evs[0]), period, no, limit);
    }
  }

  /** A watched packet that is still held after a ticker pass is within its limit. */
  lemma {:induction false} PunctualRun(b: Buffer, no: int, t0: real, evs: seq<Event>, t: real, period: real,
                                       limit: real)
    requires Live(b, t0) && Punctual(b, no, limit) && Paced(From(t0), evs + [Timer(t)], period)
    ensures Holds(After(b, evs + [Timer(t)]).held, no) ==> t < limit
  {
    hide Live, Punctual, Tick, Holds, Paced, After, Last;
    SplitRun(b, From(t0), evs, t, period);
    AfterPunctual(b, evs, From(t0), period, no, limit);
    TickPunctual(After(b, evs), Last(From(t0), evs).now, t, no, limit);
  }

  /** A number between two neighbours of the ascending queue is not in it. */
  lemma NoneBetween(held: seq<Entry>, next: int, no: int, k: nat, j: nat, p: int)
    requires Ascending(held) && j <= k <= |held|
    requires forall i :: 0 <= i < |held| ==> (held[i].no < no <==> i < k)
    requires (if j == 0 then next - 1 else held[j - 1].no) < p < (if j < k then held[j].no else no)
    requires forall i :: 0 <= i < |held| ==> next <= held[i].no
    ensures !Holds(held, p)
  {
    forall i | 0 <= i < |held| ensures held[i].no != p {
      if i < j { assert held[i].no <= held[j - 1].no; } else if j < k { assert held[i].no >= held[j].no; }
    }
  }

  lemma NoWideGapAt(held: seq<Entry>, next: int, e: Entry, k: nat, j: nat)
    requires NoWideGap(held, next, e.no) && Ascending(held) && j <= k <= |held|
    requires forall i :: 0 <= i < |held| ==> (held[i].no < e.no <==> i < k)
    requires forall i :: 0 <= i < |held| ==> next <= held[i].no != e.no
    ensures var held' := Inserted(held, e, k); held'[j].no - Before(held', next, j) <= 2
  {
    var held' := Inserted(held, e, k);
    assert held'[j] == if j < k then held[j] else e;
    if j > 0 { assert held'[j - 1] == held[j - 1]; }
    var p := Before(held', next, j) + 1;
    if p + 1 < held'[j].no {
      NoneBetween(held, next, e.no, k, j, p);
      NoneBetween(held, next, e.no, k, j, p + 1);
    }
  }

  lemma AcceptedNarrow(b: Buffer, no: int, payload: Bytes, t0: real)
    requires Live(b, t0) && Judge(b, no) == Accepted && NoWideGap(b.held, b.next, no)
    ensures Punctual(Queued(b, no, payload, t0), no, t0 + b.timeout)
  {
    var e := Entry(no, payload, t0 + b.timeout);
    var q := Queued(b, no, payload, t0);
    InsertAscending(b.held, e);
    var k := Slot(b.held, no);
    hide Insert, Slot, Judge;
    assert q.held == Inserted(b.held, e, k);
    var limit := t0 + b.timeout;
    forall j: nat | j <= k ensures NarrowGap(q.held, q.next, j, limit) {
      NoWideGapAt(b.held, b.next, e, k, j);
      assert q.held[j] == if j < k then b.held[j] else e;
    }
    assert q.held[k] == e;
    assert NarrowAt(q, no, k, limit);
  }

  /** With only one-number gaps below it, an accepted packet leaves within one timeout, whatever arrives and when. */
  lemma {:induction false} SingleTimeout(b: Buffer, no: int, payload: Bytes, t0: real, evs: seq<Event>, t: real,
                                         period: real)
    requires Live(b, t0) && Judge(b, no) == Accepted && NoWideGap(b.held, b.next, no)
    requires Paced(From(t0), evs + [Timer(t)], period)
    ensures Holds(After(Push(b, no, payload, t0).0, evs + [Timer(t)]).held, no) ==> t < t0 + b.timeout
  {
    AcceptedNarrow(b, no, payload, t0);
    PushLive(b, no, payload, t0);
    hide Push, Queued, Punctual, Judge, NoWideGap, After, Holds, Paced, Live;
    var (b1, out) := Push(b, no, payload, t0);
    ReleasePunctual(Queued(b, no, payload, t0), b1, out, no, t0 + b.timeout);
    PunctualRun(b1, no, t0, evs, t, period, t0 + b.timeout);
  }

  lemma AbsentBetween(held: seq<Entry>, next: int, j: nat, p: int)
    requires Ascending(held) && j < |held| && Before(held, next, j) < p < held[j].no
    requires forall i :: 0 <= i < |held| ==> next <= held[i].no
    ensures !Holds(held, p)
  {
    forall i | 0 <= i < |held| ensures held[i].no != p {
      if i < j { assert held[i].no <= held[j - 1].no; } else { assert held[i].no >= held[j].no; }
    }
  }

  /** The same for a packet that is already held. */
  lemma HeldNarrow(b: Buffer, no: int, t0: real)
    requires Live(b, t0) && Holds(b.held, no) && NoWideGap(b.held, b.next, no)
    ensures Punctual(b, no, t0 + b.timeout)
  {
    var i :| 0 <= i < |b.held| && b.held[i].no == no;
    var limit := t0 + b.timeout;
    forall j: nat | j <= i ensures NarrowGap(b.held, b.next, j, limit) {
      var p := Before(b.held, b.next, j) + 1;
      if p + 1 < b.held[j].no {
        AbsentBetween(b.held, b.next, j, p);
        AbsentBetween(b.held, b.next, j, p + 1);
      }
    }
    assert NarrowAt(b, no, i, limit);
  }

  // ----- a wide gap really does cost more than one timeout

  /** The drain loop never passes an entry that stands behind a gap and has not expired. */
  lemma {:induction false} DrainStopsAt(b: Buffer, now: real, k: nat)
    requires Valid(b) && !b.priming && b.started && k < |b.held|
    requires b.held[k].no - Before(b.held, b.next, k) >= 2 && now < b.held[k].deadline
    ensures |DrainLoop(b, now).1| <= k
    decreases |b.held|
  {
    if Due(b, now) {
      DrainTurn(b, now);
      if k == 0 { assert false; }
      var b1 := Release(CountGap(b, b.held[0].no - b.next));
      assert b1.held == b.held[1..];
      assert b1.held[k - 1] == b.held[k];
      if k > 1 { assert b1.held[k - 2] == b.held[k - 1]; }
      hide Release;
      DrainStopsAt(b1, now, k - 1);
    }
  }

  // ----- against every ticker

  /** Every event comes within a period of the last tick: a ticker that really runs at least that often. */
  predicate Ticking(c: Clock, evs: seq<Event>, period: real)
    decreases |evs|
  {
    evs == [] ||
    (&& Follows(c, evs[0], period) && (evs[0].Timer? ==> evs[0].now <= c.tick + period)
     && Ticking(Next(c, evs[0]), evs[1..], period))
  }

  lemma {:induction false} TickingIsPaced(c: Clock, evs: seq<Event>, period: real)
    requires Ticking(c, evs, period)
    ensures Paced(c, evs, period)
    decreases |evs|
  {
    if evs != [] { TickingIsPaced(Next(c, evs[0]), evs[1..], period); }
  }

  function Ticks(tick: real, n: nat, period: real): seq<Event>
    decreases n
  {
    if n == 0 then [] else [Timer(tick + period)] + Ticks(tick + period, n - 1, period)
  }

  lemma {:induction false} TicksTicking(c: Clock, n: nat, t: real, period: real)
    requires period > 0.0 && c.now <= c.tick + period && c.now <= t
    requires c.tick + n as real * period <= t <= c.tick + n as real * period + period
    ensures Ticking(c, Ticks(c.tick, n, period) + [Timer(t)], period)
    decreases n
  {
    var evs := Ticks(c.tick, n, period) + [Timer(t)];
    if n == 0 {
      assert evs[1..] == [];
    } else {
      assert n as real * period == (n - 1) as real * period + period;
      assert (n - 1) as real * period >= 0.0;
      var c' := Clock(c.tick + period, c.tick + period);
      assert evs[1..] == Ticks(c'.tick, n - 1, period) + [Timer(t)];
      TicksTicking(c', n - 1, t, period);
    }
  }

  ghost predicate Shield(b: Buffer, q: int, d: real, k: nat) {
    k < |b.held| && b.held[k].no == q + 1 && b.held[k].deadline == d
  }

  /** The late arrival at q + 1 stands between the packet and the position, behind a gap, and expires at d. */
  ghost predicate Shielded(b: Buffer, no: int, q: int, d: real) {
    && Valid(b) && b.started && !b.priming && b.next <= q && !Holds(b.held, q) && Holds(b.held, no) && q + 1 <= no
    && exists k: nat :: Shield(b, q, d, k)
  }

  lemma {:induction false} ShieldStops(b: Buffer, no: int, q: int, d: real, k: nat, now: real)
    requires Shielded(b, no, q, d) && Shield(b, q, d, k) && now < d
    ensures |DrainLoop(b, now).1| <= k
  {
    if k > 0 { assert b.held[k - 1].no < q + 1 && b.held[k - 1].no != q; }
    hide Holds, Shielded;
    DrainStopsAt(b, now, k);
  }

  /** What stays behind when a prefix leaves: entry i does, and nothing that was not there. */
  lemma BehindPrefix(held: seq<Entry>, out: seq<Entry>, held': seq<Entry>, i: nat, q: int, no: int)
    requires held == out + held' && |out| <= i < |held| && held[i].no == no && !Holds(held, q)
    ensures Holds(held', no) && !Holds(held', q)
  {
    assert held'[i - |out|] == held[i];
    assert forall j :: 0 <= j < |held'| ==> held'[j] == held[|out| + j];
  }

  lemma ReleaseShielded(b: Buffer, b': Buffer, out: seq<Entry>, no: int, q: int, d: real, k: nat)
    requires Shielded(b, no, q, d) && Shield(b, q, d, k) && Releases(b, b', out) && |out| <= k
    requires Valid(b') && !b'.priming
    ensures Shielded(b', no, q, d)
  {
    var n := |out|;
    assert b'.next <= q by {
      if n > 0 { assert out[n - 1] == b.held[n - 1] && b.held[n - 1].no < q + 1 && b.held[n - 1].no != q; }
    }
    var i :| 0 <= i < |b.held| && b.held[i].no == no;
    assert i >= k;
    hide Valid, Ascending;
    BehindPrefix(b.held, out, b'.held, i, q, no);
    assert b'.held[k - n] == b.held[k];
    assert Shield(b', q, d, k - n);
  }

  lemma TickShielded(b: Buffer, no: int, q: int, d: real, now: real)
    requires Shielded(b, no, q, d) && now < d
    ensures Shielded(Tick(b, now).0, no, q, d)
  {
    var k: nat :| Shield(b, q, d, k);
    ShieldStops(b, no, q, d, k, now);
    DrainLoopReleases(b, now);
    assert b.(priming := false) == b;
    hide DrainLoop, Valid, Holds, Shield, Shielded, Releases;
    var (b', out) := DrainLoop(b, now);
    ReleaseShielded(b, b', out, no, q, d, k);
  }

  lemma {:induction false} TicksShielded(b: Buffer, no: int, q: int, d: real, tick: real, n: nat, t: real, period: real)
    requires Shielded(b, no, q, d) && period > 0.0 && tick + n as real * period <= t < d
    ensures Shielded(After(b, Ticks(tick, n, period) + [Timer(t)]), no, q, d)
    decreases n
  {
    hide Shielded, Tick;
    var evs := Ticks(tick, n, period) + [Timer(t)];
    if n == 0 {
      assert evs[1..] == [];
      TickShielded(b, no, q, d, t);
      TimerStep(b, t);
      assert After(Step(b, Timer(t)), []) == Step(b, Timer(t));
    } else {
      assert n as real * period == (n - 1) as real * period + period;
      assert (n - 1) as real * period >= 0.0;
      assert evs[1..] == Ticks(tick + period, n - 1, period) + [Timer(t)];
      TickShielded(b, no, q, d, tick + period);
      TimerStep(b, tick + period);
      TicksShielded(Tick(b, tick + period).0, no, q, d, tick + period, n - 1, t, period);
    }
  }

  lemma QueuedFits(b: Buffer, no: int, payload: Bytes, now: real)
    requires Valid(b) && b.started && !b.priming
    ensures var a := Queued(b, no, payload, now);
            Valid(a) && a.started && !a.priming && |a.held| <= |b.held| + 1 && a.capacity == b.capacity
  {
    QueuedCounts(b, no, payload, now);
    QueuedValid(b, no, payload, now);
    hide Queued, Judge, Valid;
  }

  lemma {:induction false} DrainHeld(a: Buffer, now: real)
    requires Valid(a) && !a.priming && a.started
    ensures var a' := DrainLoop(a, now).0; |a'.held| <= |a.held| && a'.capacity == a.capacity
  {
    DrainLoopReleases(a, now);
    hide DrainLoop;
  }

  lemma {:induction false} DrainShielded(b: Buffer, no: int, q: int, d: real, now: real)
    requires Shielded(b, no, q, d) && now < d
    ensures Shielded(DrainLoop(b, now).0, no, q, d)
  {
    TickShielded(b, no, q, d, now);
    assert b.(priming := false) == b;
    hide DrainLoop, Shield;
  }

  lemma QueuedShielded(b: Buffer, no: int, q: int, payload: Bytes, now: real)
    requires Valid(b) && b.started && !b.priming && Judge(b, q + 1) == Accepted
    requires Holds(b.held, no) && b.next <= q && q + 1 < no && !Holds(b.held, q)
    ensures Shielded(Queued(b, q + 1, payload, now), no, q, now + b.timeout)
  {
    hide Insert, Ascending, Holds, Slot;
    var e := Entry(q + 1, payload, now + b.timeout);
    AcceptValid(b, e);
    InsertHolds(b.held, e, no);
    InsertHolds(b.held, e, q);
    InsertAtSlot(b.held, e);
    var k := Slot(b.held, q + 1);
    assert Insert(b.held, e)[k] == e;
    assert Shield(Queued(b, q + 1, payload, now), q, now + b.timeout, k);
  }

  /** The last number of a wide gap, arriving late into a buffer with room, shields everything behind it. */
  lemma PushShielded(b: Buffer, no: int, q: int, payload: Bytes, now: real)
    requires Valid(b) && b.started && !b.priming && |b.held| < b.capacity && b.timeout > 0.0
    requires Holds(b.held, no) && b.next <= q && q + 1 < no && !Holds(b.held, q) && !Holds(b.held, q + 1)
    ensures Shielded(Push(b, q + 1, payload, now).0, no, q, now + b.timeout)
  {
    hide Queued, Holds, Shield, Push, DrainLoop, Releases;
    assert Judge(b, q + 1) == Accepted;
    QueuedShielded(b, no, q, payload, now);
    hide Judge;
    QueuedFits(b, q + 1, payload, now);
    var a := Queued(b, q + 1, payload, now);
    hide Valid, Shielded;
    DrainHeld(a, now);
    PushIsDrain(b, q + 1, payload, now);
    DrainShielded(a, no, q, now + b.timeout, now);
  }

  lemma ShieldedHolds(b: Buffer, no: int, q: int, d: real)
    requires Shielded(b, no, q, d)
    ensures Holds(b.held, no)
  {
  }

  function Periods(n: real, period: real): real {
    n * period
  }

  lemma OneMore(n: real, period: real)
    ensures Periods(n + 1.0, period) == Periods(n, period) + period
  {
  }

  lemma PeriodsGrow(x: real, y: real, period: real)
    requires x <= y && period > 0.0
    ensures Periods(x, period) <= Periods(y, period) && (x < y ==> Periods(x, period) < Periods(y, period))
  {
    var d := y - x;
    assert y * period == x * period + d * period;
    assert d * period >= 0.0 && (d > 0.0 ==> d * period > 0.0);
  }

  /** How many whole periods fit. */
  lemma Whole(span: real, period: real) returns (n: nat)
    requires span >= 0.0 && period > 0.0
    ensures Periods(n as real, period) <= span < Periods(n as real, period) + period
  {
    var x := span / period;
    assert x >= 0.0 && Periods(x, period) == span;
    n := x.Floor;
    hide Periods;
    PeriodsGrow(n as real, x, period);
    PeriodsGrow(x, n as real + 1.0, period);
    OneMore(n as real, period);
  }

  /**
   A witness against every ticker: the last number of the wide gap arrives before the next tick, and from then on
   no tick gets past it for a whole timeout, however often the ticker runs.
   */
  lemma WideGapOverstays(b: Buffer, no: int, t0: real, q: int, period: real) returns (evs: seq<Event>, t: real)
    requires Live(b, t0) && |b.held| < b.capacity && b.timeout > 0.0 && period > 0.0
    requires Holds(b.held, no) && b.next <= q && q + 1 < no && !Holds(b.held, q) && !Holds(b.held, q + 1)
    ensures Ticking(From(t0), evs + [Timer(t)], period) && t - t0 >= b.timeout
    ensures Holds(After(b, evs + [Timer(t)]).held, no)
  {
    hide Push, Holds, Ascending;
    var t1 := t0 + (if period < b.timeout then period else b.timeout) / 2.0;
    t := t0 + b.timeout;
    var n := Whole(b.timeout, period);
    var late := Arrive(q + 1, [0], t1);
    evs := [late] + Ticks(t0, n, period);
    PushShielded(b, no, q, [0], t1);
    var b1 := Step(b, late);
    hide Shielded, Valid;
    TicksShielded(b1, no, q, t1 + b.timeout, t0, n, t, period);
    TicksTicking(Clock(t0, t1), n, t, period);
    assert evs + [Timer(t)] == [late] + (Ticks(t0, n, period) + [Timer(t)]);
    assert ([late] + (Ticks(t0, n, period) + [Timer(t)]))[1..] == Ticks(t0, n, period) + [Timer(t)];
    ShieldedHolds(After(b1, Ticks(t0, n, period) + [Timer(t)]), no, q, t1 + b.timeout);
  }

  /** Over every continuation under a ticker, whoever still finds the packet held after a tick is within one timeout. */
  ghost predicate AlwaysOnTime(b: Buffer, no: int, t0: real, period: real) {
    forall evs, t :: Ticking(From(t0), evs + [Timer(t)], period) && Holds(After(b, evs + [Timer(t)]).held, no) ==>
      t - t0 < b.timeout
  }

  /** With no timeout nothing outlasts a tick at all. */
  lemma {:induction false} NothingHeldWithoutTimeout(b: Buffer, t0: real, evs: seq<Event>, t: real, period: real)
    requires Live(b, t0) && b.timeout == 0.0 && Paced(From(t0), evs + [Timer(t)], period)
    ensures After(b, evs + [Timer(t)]).held == []
  {
    SplitRun(b, From(t0), evs, t, period);
    hide Tick, Paced, After, Last;
    AfterLive(b, evs, From(t0), period);
    TickLive(After(b, evs), Last(From(t0), evs).now, t);
    assert Tick(After(b, evs), t).0.timeout == 0.0;
  }

  lemma {:induction false} OnTimeIfNarrow(b: Buffer, no: int, t0: real, period: real)
    requires Live(b, t0) && (Gone(b, no) || Holds(b.held, no))
    requires b.timeout == 0.0 || !Holds(b.held, no) || NoWideGap(b.held, b.next, no)
    ensures AlwaysOnTime(b, no, t0, period)
  {
    if Holds(b.held, no) && NoWideGap(b.held, b.next, no) { HeldNarrow(b, no, t0); }
    hide Live, NoWideGap, Ticking, Paced, After;
    forall evs, t | Ticking(From(t0), evs + [Timer(t)], period) && Holds(After(b, evs + [Timer(t)]).held, no)
      ensures t - t0 < b.timeout
    {
      TickingIsPaced(From(t0), evs + [Timer(t)], period);
      if b.timeout == 0.0 {
        NothingHeldWithoutTimeout(b, t0, evs, t, period);
      } else {
        PunctualRun(b, no, t0, evs, t, period, t0 + b.timeout);
      }
    }
  }

  lemma PushedOrGone(b: Buffer, no: int, payload: Bytes, now: real)
    requires Live(b, now) && Judge(b, no) == Accepted
    ensures var b1 := Push(b, no, payload, now).0; Gone(b1, no) || Holds(b1.held, no)
  {
    PushWatched(b, no, payload, now, 0.0);
    hide Push, Live, Judge;
  }

  /**
   The exact condition for the documented promise.  Take the buffer as a push leaves it, with room for one more
   packet.  The packet is sure to be gone one timeout later, over every continuation under a ticker of any period, if
   and only if no two neighbouring numbers below it are both missing, unless it has left already or there is no timeout.
   */
  lemma {:induction false} OneTimeoutExactly(b: Buffer, no: int, payload: Bytes, t0: real, period: real)
    requires Live(b, t0) && Judge(b, no) == Accepted && period > 0.0
    requires var b1 := Push(b, no, payload, t0).0; |b1.held| < b1.capacity
    ensures var b1 := Push(b, no, payload, t0).0;
            AlwaysOnTime(b1, no, t0, period) <==>
            b.timeout == 0.0 || !Holds(b1.held, no) || NoWideGap(b1.held, b1.next, no)
  {
    var b1 := Push(b, no, payload, t0).0;
    PushLive(b, no, payload, t0);
    QueuedTimeout(b, no, payload, t0);
    PushedOrGone(b, no, payload, t0);
    hide Push, Queued, Judge, Ticking, After;
    if b.timeout == 0.0 || !Holds(b1.held, no) || NoWideGap(b1.held, b1.next, no) {
      OnTimeIfNarrow(b1, no, t0, period);
    } else {
      var q :| b1.next <= q && q + 1 < no && !Holds(b1.held, q) && !Holds(b1.held, q + 1);
      var evs, t := WideGapOverstays(b1, no, t0, q, period);
      assert Holds(After(b1, evs + [Timer(t)]).held, no);
    }
  }

  // ----- what a caller can tell before the push

  /** A buffer whose head is waiting is not changed by the timer before the head's deadline. */
  lemma QuietTick(b: Buffer, now: real)
    requires b.started && !b.priming && Quiet(b, now)
    ensures Tick(b, now) == (b, [])
  {
  }

  /** Accepting behind a waiting head, with room to spare, releases nothing. */
  lemma QuietPush(b: Buffer, no: int, payload: Bytes, now: real)
    requires Valid(b) && b.started && !b.priming && Quiet(b, now) && b.timeout > 0.0
    requires Judge(b, no) == Accepted && no != b.next && |b.held| < b.capacity
    ensures var q := Queued(b, no, payload, now);
            Push(b, no, payload, now) == (q, []) && Quiet(q, now)
  {
    InsertAscending(b.held, Entry(no, payload, now + b.timeout));
    var q := Queued(b, no, payload, now);
    assert q.held[0] == if Slot(b.held, no) == 0 then Entry(no, payload, now + b.timeout) else b.held[0];
    QuietTick(q, now);
  }

  lemma ContiguousOnTime(b: Buffer, no: int, payload: Bytes, t0: real, period: real)
    requires Live(b, t0) && Judge(b, no) == Accepted && no == b.next
    ensures AlwaysOnTime(Push(b, no, payload, t0).0, no, t0, period) && NoWideGap(b.held, b.next, no)
  {
    PushLive(b, no, payload, t0);
    QueuedTimeout(b, no, payload, t0);
    hide Push, Queued, Judge, Holds, Ticking, After, Live, Paced;
    var b1 := Push(b, no, payload, t0).0;
    forall evs, t | Ticking(From(t0), evs + [Timer(t)], period) && Holds(After(b1, evs + [Timer(t)]).held, no)
      ensures t - t0 < b1.timeout
    {
      TickingIsPaced(From(t0), evs + [Timer(t)], period);
      SingleTimeout(b, no, payload, t0, evs, t, period);
    }
  }

  lemma QueuedGaps(b: Buffer, no: int, payload: Bytes, now: real)
    requires Valid(b) && b.started && !b.priming && Judge(b, no) == Accepted
    ensures var q := Queued(b, no, payload, now);
            && |q.held| == |b.held| + 1 && q.capacity == b.capacity && Holds(q.held, no)
            && (NoWideGap(q.held, q.next, no) <==> NoWideGap(b.held, b.next, no))
  {
    hide Holds, Insert, Ascending;
    var e := Entry(no, payload, now + b.timeout);
    AcceptValid(b, e);
    forall p ensures Holds(Insert(b.held, e), p) <==> Holds(b.held, p) || p == no { InsertHolds(b.held, e, p); }
  }

  /** Before the push: with nothing due and room for two more packets, the gaps below the newcomer decide. */
  lemma {:induction false} OneTimeoutForeseen(b: Buffer, no: int, payload: Bytes, t0: real, period: real)
    requires Live(b, t0) && Quiet(b, t0) && b.timeout > 0.0 && |b.held| + 1 < b.capacity && period > 0.0
    requires Judge(b, no) == Accepted
    ensures AlwaysOnTime(Push(b, no, payload, t0).0, no, t0, period) <==> NoWideGap(b.held, b.next, no)
  {
    hide Ticking, After, Holds, Fresh;
    if no == b.next {
      ContiguousOnTime(b, no, payload, t0, period);
    } else {
      QuietPush(b, no, payload, t0);
      QueuedGaps(b, no, payload, t0);
      hide Push, Judge, Valid, NoWideGap, Queued;
      OneTimeoutExactly(b, no, payload, t0, period);
    }
  }
}
