/**
 How long the Android buffer can hold one packet.  It keeps a single deadline for the whole queue and restarts it
 with every release; each release uses up at least one number the packet is waiting for.  The clock never runs
 backwards, packets arrive at any time, and a whole period never passes without a tick.
 */
module KotlinTiming {
  import opened Bytes
  import opened Resequencer
  import opened KotlinReorder
  import K = KotlinReorder

  // ----- runs in time

  /** When the timer last ran, and when anything last happened. */
  datatype Clock = Clock(tick: int, now: int)

  function At(ev: K.Event): int {
    match ev case Timer(now) => now case Arrive(_, _, now) => now
  }

  /** The event comes next, before a whole period has passed without a tick; numbers are ordinary. */
  predicate Follows(c: Clock, ev: K.Event, period: int) {
    c.now <= At(ev) <= c.tick + period && (ev.Arrive? ==> Ordinary(ev.no))
  }

  function Next(c: Clock, ev: K.Event): Clock {
    Clock(if ev.Timer? then ev.now else c.tick, At(ev))
  }

  predicate Ticking(c: Clock, evs: seq<K.Event>, period: int)
    decreases |evs|
  {
    evs == [] || (Follows(c, evs[0], period) && Ticking(Next(c, evs[0]), evs[1..], period))
  }

  function Last(c: Clock, evs: seq<K.Event>): Clock
    decreases |evs|
  {
    if evs == [] then c else Last(Next(c, evs[0]), evs[1..])
  }

  function From(t0: int): Clock {
    Clock(t0, t0)
  }

  function Step(s: State, ev: K.Event): State {
    match ev
    case Timer(now) => K.Tick(s, now).0
    case Arrive(no, packet, now) => K.Push(s, no, packet, now).0
  }

  function After(s: State, evs: seq<K.Event>): State
    decreases |evs|
  {
    if evs == [] then s else After(Step(s, evs[0]), evs[1..])
  }

  /** A run that ends in a tick is the run before it, and then the tick. */
  lemma {:induction false} SplitRun(s: State, c: Clock, evs: seq<K.Event>, t: int, period: int)
    requires Ticking(c, evs + [Timer(t)], period)
    ensures Ticking(c, evs, period) && Follows(Last(c, evs), Timer(t), period)
    ensures After(s, evs + [Timer(t)]) == K.Tick(After(s, evs), t).0
    decreases |evs|
  {
    hide K.Tick, K.Push;
    var all := evs + [Timer(t)];
    if evs == [] {
      assert all == [Timer(t)] && all[1..] == [];
      assert After(Step(s, Timer(t)), []) == Step(s, Timer(t));
    } else {
      assert all[0] == evs[0] && all[1..] == evs[1..] + [Timer(t)];
      SplitRun(Step(s, evs[0]), Next(c, evs[0]), evs[1..], t, period);
    }
  }

  // ----- missing numbers

  /** How many numbers from the position up to held entry i have not arrived. */
  function Missing(held: seq<Entry>, next: int, i: nat): int
    requires i < |held|
  {
    held[i].no - next - i
  }

  /** A release moves past the numbers it skips, and whoever stays has that many fewer missing below it. */
  lemma MissingAfter(queue: seq<Entry>, next: int, out: seq<Entry>, held: seq<Entry>, next': int, j: nat)
    requires Ascending(queue) && PrefixLeaves(queue, next, out, held, next') && |out| <= j < |queue|
    ensures held[j - |out|] == queue[j]
    ensures out == [] ==> Missing(held, next', j) == Missing(queue, next, j)
    ensures out != [] ==> Missing(held, next', j - |out|) <= Missing(queue, next, j) - (queue[0].no - next)
  {
    if out != [] {
      assert out[|out| - 1] == queue[|out| - 1];
      Spread(queue, |out| - 1);
    }
  }

  lemma {:induction false} PutNew(held: seq<Entry>, e: Entry)
    requires !Holds(held, e.no)
    ensures Put(held, e) == Insert(held, e)
  {
    if held != [] {
      HoldsFirst(held, e.no);
      if e.no > held[0].no { PutNew(held[1..], e); }
    }
  }

  lemma {:induction false} PutKnown(held: seq<Entry>, e: Entry)
    requires Ascending(held) && Holds(held, e.no)
    ensures var q := Put(held, e); |q| == |held| && forall i :: 0 <= i < |held| ==> q[i].no == held[i].no
  {
    HoldsFirst(held, e.no);
    if e.no > held[0].no { PutKnown(held[1..], e); }
  }

  lemma SameNumbers(held: seq<Entry>, held': seq<Entry>, no: int)
    requires |held| == |held'| && forall i :: 0 <= i < |held| ==> held'[i].no == held[i].no
    ensures Holds(held, no) <==> Holds(held', no)
  {
  }

  /** Putting adds the newcomer's number to the numbers held. */
  lemma {:induction false} PutHolds(held: seq<Entry>, e: Entry, no: int)
    requires Ascending(held)
    ensures Holds(Put(held, e), no) <==> Holds(held, no) || no == e.no
  {
    hide Holds, Insert, Put;
    if Holds(held, e.no) {
      PutKnown(held, e);
      SameNumbers(held, Put(held, e), no);
    } else {
      PutNew(held, e);
      InsertHolds(held, e, no);
    }
  }

  /** Where an arrival leaves held entry i, and what it does to the numbers missing below it. */
  lemma {:induction false} MissingAfterPut(held: seq<Entry>, next: int, e: Entry, i: nat) returns (j: nat)
    requires Ascending(held) && i < |held| && next < held[0].no && next <= e.no
    ensures var q := Put(held, e);
            && j < |q| && q[j].no == held[i].no && Ascending(q) && |held| <= |q|
            && Missing(q, next, j) <= Missing(held, next, i)
            && next <= q[0].no && (q[0].no == next ==> Missing(q, next, j) == Missing(held, next, i) - 1)
            && (|q| == 1 ==> |held| == 1 && held[0].no == e.no)
  {
    PutKeeps(held, e, next);
    if Holds(held, e.no) {
      PutKnown(held, e);
      j := i;
      assert Put(held, e)[0].no == held[0].no;
    } else {
      PutNew(held, e);
      InsertAscending(held, e);
      var k := Slot(held, e.no);
      hide Put, Insert, Slot, Holds;
      j := if i < k then i else i + 1;
      assert Put(held, e) == held[..k] + [e] + held[k..];
    }
  }

  // ----- one wait after the other

  /** The latest the deadline can be once `left` of the missing numbers have been waited out. */
  function Limit(s: State, period: int, t0: int, left: int): int {
    t0 + left * (s.timeout + period) + s.timeout
  }

  lemma {:induction false} ProductGrows(a: int, b: int, w: int)
    requires a < b && w >= 0
    ensures a * w + w <= b * w
    decreases b - a
  {
    if a + 1 < b { ProductGrows(a, b - 1, w); }
  }

  lemma LimitGrows(s: State, period: int, t0: int, left: int, left': int)
    requires s.timeout >= 0 && period >= 0 && left <= left'
    ensures Limit(s, period, t0, left) <= Limit(s, period, t0, left')
    ensures left < left' ==> Limit(s, period, t0, left) + period + s.timeout <= Limit(s, period, t0, left')
  {
    if left < left' { ProductGrows(left, left', s.timeout + period); }
  }

  /** m timeouts, and a timer period between each two of them. */
  function StallLimit(m: int, timeout: int, period: int): int {
    m * timeout + (m - 1) * period
  }

  lemma LastLimit(s: State, period: int, t0: int, m: int)
    ensures Limit(s, period, t0, m - 1) == t0 + StallLimit(m, s.timeout, period)
  {
    var n := m - 1;
    assert n * (s.timeout + period) == n * s.timeout + n * period;
    assert m * s.timeout == n * s.timeout + s.timeout;
  }

  lemma SameLimit(s: State, s': State, period: int, t0: int, left: int)
    requires s'.timeout == s.timeout
    ensures Limit(s', period, t0, left) == Limit(s, period, t0, left)
  {
  }

  /** Held entry i still waits for some of its m missing numbers; deadline and last tick are within the limit. */
  ghost predicate Waits(s: State, i: nat, tick: int, period: int, t0: int, m: int) {
    && AtRest(s) && s.next >= 0 && s.timeout >= 0 && period >= 0 && i < |s.held|
    && 1 <= Missing(s.held, s.next, i) <= m
    && s.deadline <= Limit(s, period, t0, m - Missing(s.held, s.next, i))
    && tick <= Limit(s, period, t0, m - Missing(s.held, s.next, i))
  }

  /**
   The packet does not stand alone: the number just before it is held, or a larger one is.  Neither can leave before
   the packet does, so the packet is never the only one held.
   */
  ghost predicate Escorted(s: State, no: int) {
    Holds(s.held, no - 1) || exists i :: 0 <= i < |s.held| && s.held[i].no > no
  }

  ghost predicate Safe(s: State, no: int) {
    Escorted(s, no) || s.timeout == 0
  }

  /** The watched number has left the buffer, or is held, safe, and waits. */
  ghost predicate Watched(s: State, no: int, tick: int, period: int, t0: int, m: int) {
    && AtRest(s) && s.next >= 0
    && (no < s.next
        || (Safe(s, no) && exists i :: 0 <= i < |s.held| && s.held[i].no == no && Waits(s, i, tick, period, t0, m)))
  }

  /** At rest at least one number is missing below every packet held. */
  lemma SomethingMissing(s: State, i: nat)
    requires AtRest(s) && i < |s.held|
    ensures Missing(s.held, s.next, i) >= 1
  {
    Spread(s.held, i);
  }

  /**
   One release or none.  If nothing left, the deadline is as it was; if something did, it was restarted now, and
   the packet that stays has at least one number fewer to wait for.
   */
  lemma WaitsOn(s: State, s': State, queue: seq<Entry>, out: seq<Entry>, i: nat, j: nat, tick: int, tick': int,
                now: int, period: int, t0: int, m: int)
    requires Waits(s, i, tick, period, t0, m) && now <= tick + period && (tick' == tick || tick' == now)
    requires AtRest(s') && s'.timeout == s.timeout && s'.next >= 0
    requires Ascending(queue) && j < |queue| && s.next <= queue[0].no
    requires PrefixLeaves(queue, s.next, out, s'.held, s'.next)
    requires Missing(queue, s.next, j) <= Missing(s.held, s.next, i)
    requires queue[0].no == s.next ==> Missing(queue, s.next, j) == Missing(s.held, s.next, i) - 1
    requires if out == [] then s'.deadline == s.deadline && (tick' == tick || now < s.deadline)
             else s'.deadline == now + s.timeout
    ensures queue[j].no < s'.next
         || (|out| <= j && s'.held[j - |out|] == queue[j] && Waits(s', j - |out|, tick', period, t0, m))
  {
    hide AtRest, Limit;
    if j < |out| {
      var last := out[|out| - 1];
      assert queue[|out| - 1] == last;
      assert queue[j].no <= last.no;
    } else {
      MissingAfter(queue, s.next, out, s'.held, s'.next, j);
      var i' := j - |out|;
      SomethingMissing(s', i');
      var mu, mu' := Missing(s.held, s.next, i), Missing(s'.held, s'.next, i');
      LimitGrows(s, period, t0, m - mu, m - mu');
      SameLimit(s, s', period, t0, m - mu');
    }
  }

  /** Whoever stays keeps its escort: what is above leaves later, and number no - 1 never leaves without no. */
  lemma EscortStays(queue: seq<Entry>, next: int, out: seq<Entry>, s': State, no: int)
    requires Ascending(queue) && PrefixLeaves(queue, next, out, s'.held, s'.next) && AtRest(s')
    requires Holds(s'.held, no)
    requires Holds(queue, no - 1) || exists i :: 0 <= i < |queue| && queue[i].no > no
    ensures Escorted(s', no)
  {
    var n := |out|;
    var k :| 0 <= k < |s'.held| && s'.held[k].no == no;
    assert queue[n + k].no == no;
    assert n > 0 ==> out[n - 1] == queue[n - 1] && queue[n - 1].no + 1 < no;
    if exists i :: 0 <= i < |queue| && queue[i].no > no {
      var i :| 0 <= i < |queue| && queue[i].no > no;
      assert s'.held[i - n] == queue[i];
    } else {
      var i :| 0 <= i < |queue| && queue[i].no == no - 1;
      assert i >= n;
      assert s'.held[i - n] == queue[i];
    }
  }

  // ----- one event

  lemma AheadOfPosition(s: State)
    requires AtRest(s)
    ensures Ascending(s.held) && (s.held != [] ==> s.next < s.held[0].no)
  {
  }

  lemma TickDeadline(s: State, now: int)
    requires AtRest(s)
    ensures var (s', out) := K.Tick(s, now);
            && s'.timeout == s.timeout && PrefixLeaves(s.held, s.next, out, s'.held, s'.next)
            && AtRest(s') && s'.next >= s.next
            && (if s.held == [] || now < s.deadline then s' == s && out == []
                else out != [] && s'.deadline == now + s.timeout)
  {
    TickRests(s, now);
    hide DrainContiguous, AtRest;
  }

  lemma QueueAheadOf(s: State, no: int, packet: Bytes)
    requires AtRest(s) && s.next >= 0 && Ordinary(no) && no >= s.next
    ensures var q := Put(s.held, Entry(no, packet, 0.0)); Ahead(q, s.next) && q != [] && s.next <= q[0].no
  {
    QueueAhead(s, no, packet);
  }

  /** A second copy of the only packet held: the map keeps its size of one, and the wait starts again. */
  predicate Repeats(s: State, no: int) {
    |s.held| == 1 && s.held[0].no == no
  }

  lemma NothingDrainedAt(s: State)
    requires s.held != [] && Ahead(s.held, s.next)
    ensures DrainContiguous(s.held, s.next).0 == [] ==> DrainContiguous(s.held, s.next) == ([], s.held, s.next)
    ensures DrainContiguous(s.held, s.held[0].no).0 != []
  {
    if DrainContiguous(s.held, s.next).0 == [] { NothingDrained(s.held, s.next); }
    DrainLeavesAhead(s.held, s.held[0].no);
  }

  lemma SettleDeadline(s: State, now: int)
    requires s.held != [] && Ahead(s.held, s.next)
    ensures var (s', out) := Settle(s, now);
            s'.timeout == s.timeout && if out == [] then s'.deadline == s.deadline else s'.deadline == now + s.timeout
  {
    hide DrainContiguous, Ahead;
    NothingDrainedAt(s);
  }

  lemma PushDeadline(s: State, no: int, packet: Bytes, now: int)
    requires AtRest(s) && s.next >= 0 && s.held != [] && Ordinary(no) && !Repeats(s, no) && no >= s.next
    ensures var (s', out) := K.Push(s, no, packet, now);
            var queue := Put(s.held, Entry(no, packet, 0.0));
            && s'.timeout == s.timeout && PrefixLeaves(queue, s.next, out, s'.held, s'.next)
            && AtRest(s') && s'.next >= s.next
            && (if out == [] then s'.deadline == s.deadline else s'.deadline == now + s.timeout)
  {
    PushRests(s, no, packet, now);
    var e := Entry(no, packet, 0.0);
    QueueAheadOf(s, no, packet);
    AheadOfPosition(s);
    var j := MissingAfterPut(s.held, s.next, e, 0);
    hide AtRest, Put, PrefixLeaves, Ascending, Ahead;
    SettleDeadline(Queued(s, e, now), now);
  }

  lemma HoldsAt(held: seq<Entry>, i: int, no: int)
    requires 0 <= i < |held| && held[i].no == no
    ensures Holds(held, no)
  {
  }

  lemma StillEscorted(s: State, queue: seq<Entry>, next: int, out: seq<Entry>, s': State, no: int)
    requires Escorted(s, no) && queue == s.held
    requires Ascending(queue) && PrefixLeaves(queue, next, out, s'.held, s'.next) && AtRest(s')
    requires Holds(s'.held, no)
    ensures Escorted(s', no)
  {
    EscortStays(queue, next, out, s', no);
  }

  lemma WaitsOnTick(s: State, s': State, out: seq<Entry>, i: nat, tick: int, now: int, period: int, t0: int, m: int)
    requires Waits(s, i, tick, period, t0, m) && now <= tick + period && Ascending(s.held) && s.next < s.held[0].no
    requires AtRest(s') && s'.timeout == s.timeout && s'.next >= s.next
    requires PrefixLeaves(s.held, s.next, out, s'.held, s'.next)
    requires if now < s.deadline then s' == s && out == [] else out != [] && s'.deadline == now + s.timeout
    ensures s.held[i].no < s'.next
         || exists i' :: 0 <= i' < |s'.held| && s'.held[i'].no == s.held[i].no && Waits(s', i', now, period, t0, m)
  {
    WaitsOn(s, s', s.held, out, i, i, tick, now, now, period, t0, m);
  }

  lemma TickWatched(s: State, no: int, c: Clock, now: int, period: int, t0: int, m: int)
    requires Watched(s, no, c.tick, period, t0, m) && now <= c.tick + period
    ensures Watched(K.Tick(s, now).0, no, now, period, t0, m)
  {
    hide AtRest, K.Tick, Waits, Escorted, Holds;
    TickDeadline(s, now);
    if no >= s.next {
      var i :| 0 <= i < |s.held| && s.held[i].no == no && Waits(s, i, c.tick, period, t0, m);
      var (s', out) := K.Tick(s, now);
      AheadOfPosition(s);
      WaitsOnTick(s, s', out, i, c.tick, now, period, t0, m);
      if no >= s'.next {
        var i' :| 0 <= i' < |s'.held| && s'.held[i'].no == no && Waits(s', i', now, period, t0, m);
        HoldsAt(s'.held, i', no);
        if Escorted(s, no) { StillEscorted(s, s.held, s.next, out, s', no); }
      }
    }
  }

  lemma LateChangesNothing(s: State, no: int, packet: Bytes, now: int)
    requires s.next >= 0 && no < s.next
    ensures K.Push(s, no, packet, now) == (s, [])
  {
  }

  /** A copy of the only packet held: it has no escort, and with no timeout to restart it leaves at once. */
  lemma RepeatLeaves(s: State, no: int, packet: Bytes, now: int)
    requires AtRest(s) && s.next >= 0 && Repeats(s, no) && Safe(s, no)
    ensures no < K.Push(s, no, packet, now).0.next
  {
    var e := Entry(no, packet, 0.0);
    assert Put(s.held, e) == [e];
    K.DrainTurn([e], s.next);
    K.DrainTurn([e], no);
    assert [e][1..] == [];
    assert DrainContiguous([], no + 1) == ([], [], no + 1);
    hide DrainContiguous;
  }

  lemma {:induction false} WaitsOnPush(s: State, s': State, e: Entry, out: seq<Entry>, i: nat, tick: int, now: int,
                                       period: int, t0: int, m: int)
    requires Waits(s, i, tick, period, t0, m) && now <= tick + period && e.no >= s.next
    requires Ascending(s.held) && s.next < s.held[0].no
    requires AtRest(s') && s'.timeout == s.timeout && s'.next >= s.next
    requires PrefixLeaves(Put(s.held, e), s.next, out, s'.held, s'.next)
    requires if out == [] then s'.deadline == s.deadline else s'.deadline == now + s.timeout
    ensures s.held[i].no < s'.next
         || exists i' :: 0 <= i' < |s'.held| && s'.held[i'].no == s.held[i].no && Waits(s', i', tick, period, t0, m)
  {
    var j := MissingAfterPut(s.held, s.next, e, i);
    hide Put, AtRest;
    WaitsOn(s, s', Put(s.held, e), out, i, j, tick, tick, now, period, t0, m);
  }

  lemma {:induction false} EscortedAfterPush(s: State, s': State, e: Entry, out: seq<Entry>, no: int)
    requires Escorted(s, no) && Ascending(s.held) && s.held != [] && s.next < s.held[0].no && s.next <= e.no
    requires AtRest(s') && PrefixLeaves(Put(s.held, e), s.next, out, s'.held, s'.next) && Holds(s'.held, no)
    ensures Escorted(s', no)
  {
    var queue := Put(s.held, e);
    var k := MissingAfterPut(s.held, s.next, e, 0);
    PutHolds(s.held, e, no - 1);
    if !Holds(s.held, no - 1) {
      var i :| 0 <= i < |s.held| && s.held[i].no > no;
      PutHolds(s.held, e, s.held[i].no);
      var j :| 0 <= j < |queue| && queue[j].no == s.held[i].no;
    }
    hide Put, AtRest;
    EscortStays(queue, s.next, out, s', no);
  }

  lemma PushWatched(s: State, no': int, packet: Bytes, no: int, tick: int, now: int, period: int, t0: int, m: int)
    requires Watched(s, no, tick, period, t0, m) && now <= tick + period && Ordinary(no')
    ensures Watched(K.Push(s, no', packet, now).0, no, tick, period, t0, m)
  {
    hide AtRest, Waits, Escorted, K.Push, Put;
    PushRests(s, no', packet, now);
    if no >= s.next {
      var i :| 0 <= i < |s.held| && s.held[i].no == no && Waits(s, i, tick, period, t0, m);
      AheadOfPosition(s);
      if no' < s.next {
        LateChangesNothing(s, no', packet, now);
      } else if Repeats(s, no') {
        RepeatLeaves(s, no, packet, now);
      } else {
        PushDeadline(s, no', packet, now);
        var (s', out) := K.Push(s, no', packet, now);
        WaitsOnPush(s, s', Entry(no', packet, 0.0), out, i, tick, now, period, t0, m);
        if no >= s'.next && Escorted(s, no) { EscortedAfterPush(s, s', Entry(no', packet, 0.0), out, no); }
      }
    }
  }

  lemma StepWatched(s: State, ev: K.Event, no: int, c: Clock, period: int, t0: int, m: int)
    requires Watched(s, no, c.tick, period, t0, m) && Follows(c, ev, period)
    ensures Watched(Step(s, ev), no, Next(c, ev).tick, period, t0, m)
  {
    hide Watched, K.Tick, K.Push;
    match ev
    case Timer(now) => TickWatched(s, no, c, now, period, t0, m);
    case Arrive(no', packet, now) => PushWatched(s, no', packet, no, c.tick, now, period, t0, m);
  }

  lemma StepTimeout(s: State, ev: K.Event)
    ensures Step(s, ev).timeout == s.timeout
  {
    hide DrainContiguous, Put;
  }

  lemma {:induction false} AfterWatched(s: State, evs: seq<K.Event>, no: int, c: Clock, period: int, t0: int, m: int)
    requires Watched(s, no, c.tick, period, t0, m) && Ticking(c, evs, period)
    ensures Watched(After(s, evs), no, Last(c, evs).tick, period, t0, m)
    ensures After(s, evs).timeout == s.timeout
    decreases |evs|
  {
    hide Watched, Step, Follows;
    if evs != [] {
      StepWatched(s, evs[0], no, c, period, t0, m);
      StepTimeout(s, evs[0]);
      AfterWatched(Step(s, evs[0]), evs[1..], no, Next(c, evs[0]), period, t0, m);
    }
  }

  lemma WatchedInTime(s: State, no: int, t: int, period: int, t0: int, m: int)
    requires Watched(s, no, t, period, t0, m)
    ensures Holds(s.held, no) ==> t - t0 <= StallLimit(m, s.timeout, period)
  {
    if Holds(s.held, no) {
      var k :| 0 <= k < |s.held| && s.held[k].no == no;
      var i :| 0 <= i < |s.held| && s.held[i].no == no && Waits(s, i, t, period, t0, m);
      hide Limit, AtRest;
      LimitGrows(s, period, t0, m - Missing(s.held, s.next, i), m - 1);
      LastLimit(s, period, t0, m);
    }
  }

  /** The bound for any packet that is being watched, from whenever on. */
  lemma {:induction false} WatchedBound(s: State, no: int, t0: int, evs: seq<K.Event>, t: int, period: int, m: int)
    requires Watched(s, no, t0, period, t0, m) && Ticking(From(t0), evs + [Timer(t)], period)
    ensures Holds(After(s, evs + [Timer(t)]).held, no) ==> t - t0 <= StallLimit(m, s.timeout, period)
  {
    hide Watched, K.Tick, Holds, Ticking, After, Last, StallLimit;
    SplitRun(s, From(t0), evs, t, period);
    AfterWatched(s, evs, no, From(t0), period, t0, m);
    TickWatched(After(s, evs), no, Last(From(t0), evs), t, period, t0, m);
    StepTimeout(After(s, evs), Timer(t));
    WatchedInTime(K.Tick(After(s, evs), t).0, no, t, period, t0, m);
  }

  // ----- where the bound starts

  /** Every deadline in force was set by some event no later than `clock`. */
  predicate Fresh(s: State, clock: int) {
    s.next >= 0 ==> s.deadline <= clock + s.timeout
  }

  lemma FreshPush(s: State, no: int, packet: Bytes, now: int)
    requires AtRest(s) && s.timeout >= 0 && Fresh(s, now) && Ordinary(no)
    ensures var s' := K.Push(s, no, packet, now).0; s'.timeout == s.timeout && Fresh(s', now)
  {
    var e := Entry(no, packet, 0.0);
    if s.next < 0 || no >= s.next {
      QueueAhead(s, no, packet);
      hide AtRest, Put, Ahead;
      SettleDeadline(Queued(Open(s, no, now), e, now), now);
    }
  }

  lemma FirstLimit(s: State, period: int, t0: int)
    ensures Limit(s, period, t0, 0) == t0 + s.timeout
  {
  }

  /** A safe packet that is held starts out with all its missing numbers ahead of it. */
  lemma HeldWatched(s: State, i: nat, t0: int, period: int)
    requires AtRest(s) && s.next >= 0 && s.timeout >= 0 && period >= 0 && Fresh(s, t0) && i < |s.held|
    requires Safe(s, s.held[i].no)
    ensures Watched(s, s.held[i].no, t0, period, t0, Missing(s.held, s.next, i))
  {
    hide AtRest, Limit, Safe;
    SomethingMissing(s, i);
    FirstLimit(s, period, t0);
    assert Waits(s, i, t0, period, t0, Missing(s.held, s.next, i));
  }

  lemma {:induction false} NewPlace(s: State, no: int, packet: Bytes)
    requires AtRest(s) && !Holds(s.held, no)
    ensures var e := Entry(no, packet, 0.0);
            var queue, k := Put(s.held, e), Slot(s.held, no);
            Ascending(queue) && k < |queue| && queue[k] == e
  {
    var e := Entry(no, packet, 0.0);
    PutNew(s.held, e);
    InsertAscending(s.held, e);
  }

  /** Where a push leaves its own packet: gone, or held with no more missing below it than on arrival. */
  lemma {:induction false} PushPlaces(s: State, no: int, packet: Bytes, now: int) returns (i: nat)
    requires AtRest(s) && s.next >= 0 && Ordinary(no) && no >= s.next && !Holds(s.held, no)
    ensures var s' := K.Push(s, no, packet, now).0;
            no < s'.next
            || (i < |s'.held| && s'.held[i].no == no
                && Missing(s'.held, s'.next, i) <= no - s.next - Slot(s.held, no))
  {
    hide AtRest, K.Push, Put;
    var e := Entry(no, packet, 0.0);
    var (s', out) := K.Push(s, no, packet, now);
    PushRests(s, no, packet, now);
    NewPlace(s, no, packet);
    QueueAheadOf(s, no, packet);
    var queue, k := Put(s.held, e), Slot(s.held, no);
    hide Slot, Holds, Ahead;
    if k < |out| {
      assert queue[|out| - 1] == out[|out| - 1];
      i := 0;
    } else {
      MissingAfter(queue, s.next, out, s'.held, s'.next, k);
      i := k - |out|;
    }
  }

  lemma PushStaysAtRest(s: State, no: int, packet: Bytes, now: int)
    requires AtRest(s) && s.next >= 0 && Ordinary(no)
    ensures AtRest(K.Push(s, no, packet, now).0) && K.Push(s, no, packet, now).0.next >= 0
  {
    hide AtRest, K.Push;
    PushRests(s, no, packet, now);
  }

  lemma GoneWatched(s: State, no: int, t0: int, period: int, m: int)
    requires AtRest(s) && 0 <= s.next && no < s.next
    ensures Watched(s, no, t0, period, t0, m)
  {
  }

  lemma StallLimitGrows(m: int, m': int, timeout: int, period: int)
    requires m <= m' && timeout >= 0 && period >= 0
    ensures StallLimit(m, timeout, period) <= StallLimit(m', timeout, period)
  {
    if m < m' {
      ProductGrows(m, m', timeout);
      ProductGrows(m - 1, m' - 1, period);
    }
  }

  /**
   The stall bound of the Android buffer.  A packet accepted while m numbers below it are missing, and escorted in the
   buffer as the push leaves it, is still held only while at most m timeouts and m - 1 timer periods have gone by,
   whatever arrives in the meantime.
   */
  lemma {:induction false} StallBound(s: State, no: int, packet: Bytes, t0: int, evs: seq<K.Event>, t: int, period: int)
    requires AtRest(s) && s.next >= 0 && s.timeout >= 0 && Fresh(s, t0)
    requires Ordinary(no) && no >= s.next && !Holds(s.held, no)
    requires Safe(K.Push(s, no, packet, t0).0, no)
    requires period >= 0 && Ticking(From(t0), evs + [Timer(t)], period)
    ensures var m := no - s.next - Slot(s.held, no);
            Holds(After(K.Push(s, no, packet, t0).0, evs + [Timer(t)]).held, no) ==>
              t - t0 <= StallLimit(m, s.timeout, period)
  {
    hide AtRest, K.Push, K.Tick, Slot, Ticking, After, Safe, Holds, StallLimit, Watched, Fresh;
    var m := no - s.next - Slot(s.held, no);
    var s1 := K.Push(s, no, packet, t0).0;
    FreshPush(s, no, packet, t0);
    PushStaysAtRest(s, no, packet, t0);
    var i := PushPlaces(s, no, packet, t0);
    if no < s1.next {
      GoneWatched(s1, no, t0, period, m);
      WatchedBound(s1, no, t0, evs, t, period, m);
    } else {
      HeldWatched(s1, i, t0, period);
      var mu := Missing(s1.held, s1.next, i);
      WatchedBound(s1, no, t0, evs, t, period, mu);
      StallLimitGrows(mu, m, s.timeout, period);
    }
  }

  // ----- a packet without an escort has no bound at all

  /** Held, the largest number there is, and number no - 1 is not held. */
  ghost predicate Lonely(s: State, no: int) {
    && AtRest(s) && s.next >= 0 && s.timeout >= 1
    && s.held != [] && s.held[|s.held| - 1].no == no && !Holds(s.held, no - 1)
  }

  lemma LastIsLargest(held: seq<Entry>, i: nat)
    requires Ascending(held) && i < |held|
    ensures held[i].no <= held[|held| - 1].no
  {
  }

  lemma UnescortedIsLonely(s: State, no: int)
    requires AtRest(s) && s.next >= 0 && s.timeout >= 1 && Holds(s.held, no) && !Escorted(s, no)
    ensures Lonely(s, no)
  {
    var i :| 0 <= i < |s.held| && s.held[i].no == no;
    LastIsLargest(s.held, i);
  }

  /** A contiguous drain hands out consecutive numbers. */
  lemma {:induction false} DrainConsecutive(held: seq<Entry>, next: int)
    requires Ahead(held, next)
    ensures var out := DrainContiguous(held, next).0; forall i :: 0 <= i < |out| ==> out[i].no == next + i
    decreases |held|
  {
    hide DrainContiguous, Ahead;
    K.DrainTurn(held, next);
    if held != [] && held[0].no == next {
      DrainConsecutive(held[1..], next + 1);
    } else {
      AheadOfGap(held, next);
    }
  }

  /** The lonely packet is not part of any run of consecutive numbers in front of it. */
  lemma ConsecutiveTail(held: seq<Entry>, out: seq<Entry>, rest: seq<Entry>, next: int)
    requires held == out + rest && |held| > 1 && forall i :: 0 <= i < |out| ==> out[i].no == next + i
    ensures |out| == |held| ==> held[|held| - 2].no == held[|held| - 1].no - 1
  {
  }

  lemma LastStays(held: seq<Entry>, out: seq<Entry>, rest: seq<Entry>, next: int, no: int)
    requires held == out + rest && |held| > 1 && forall i :: 0 <= i < |out| ==> out[i].no == next + i
    requires held[|held| - 1].no == no && !Holds(held, no - 1)
    ensures rest != [] && rest[|rest| - 1].no == no && !Holds(rest, no - 1)
  {
    ConsecutiveTail(held, out, rest, next);
    assert rest != [] ==> rest[|rest| - 1] == held[|held| - 1];
    assert forall i :: 0 <= i < |rest| ==> rest[i] == held[|out| + i];
  }

  lemma {:induction false} RunStopsShort(held: seq<Entry>, no: int)
    requires |held| > 1 && Ahead(held, held[0].no) && held[|held| - 1].no == no && !Holds(held, no - 1)
    ensures var (out, rest, next) := DrainContiguous(held, held[0].no);
            held == out + rest && rest != [] && rest[|rest| - 1].no == no && !Holds(rest, no - 1)
  {
    DrainConsecutive(held, held[0].no);
    DrainLeavesAhead(held, held[0].no);
    hide DrainContiguous, Ahead, Holds;
    var (out, rest, next) := DrainContiguous(held, held[0].no);
    LastStays(held, out, rest, held[0].no, no);
  }

  lemma FlushKeepsLonely(s: State, no: int, now: int)
    requires Lonely(s, no) && |s.held| > 1
    ensures var s' := FlushOldest(s, now).0; Lonely(s', no) && s'.deadline > now
  {
    RunStopsShort(s.held, no);
    FlushRests(s, now);
    hide DrainContiguous, AtRest, Holds;
  }

  /** A copy of the lonely packet takes its place in the queue, and alone it restarts the wait. */
  lemma CopyQueued(s: State, no: int, packet: Bytes, now: int)
    requires Lonely(s, no) && Ordinary(no)
    ensures var q := Queued(s, Entry(no, packet, 0.0), now);
            && Lonely(q, no) && (|q.held| == 1 ==> q.deadline == now + s.timeout)
            && K.Push(s, no, packet, now) == Settle(q, now)
  {
    hide Put, Settle;
    var e := Entry(no, packet, 0.0);
    var last := |s.held| - 1;
    assert Holds(s.held, no) by { assert s.held[last].no == no; }
    PutKnown(s.held, e);
    PutHolds(s.held, e, no - 1);
    PutKeeps(s.held, e, s.next + 1);
    hide Holds;
    var held := Put(s.held, e);
    assert held[last].no == no;
    forall i | 0 <= i < |held| ensures held[i].no < LONG_MAX { assert held[i].no == s.held[i].no; }
  }

  lemma AheadIsEnough(held: seq<Entry>, next: int)
    requires Ahead(held, next + 1)
    ensures Ahead(held, next) && (held != [] ==> held[0].no > next && Ahead(held, held[0].no))
  {
  }

  lemma SettleKeepsLonely(s: State, no: int, now: int)
    requires Lonely(s, no) && (|s.held| == 1 ==> s.deadline == now + s.timeout)
    ensures var s' := Settle(s, now).0; Lonely(s', no) && s'.deadline > now
  {
    AheadIsEnough(s.held, s.next);
    K.DrainTurn(s.held, s.next);
    hide DrainContiguous, FlushOldest, Ahead, Holds;
    if |s.held| > 1 { FlushKeepsLonely(s, no, now); }
  }

  /** A copy of the lonely packet never gets it out, and afterwards the deadline is still to come. */
  lemma CopyKeepsLonely(s: State, no: int, packet: Bytes, now: int)
    requires Lonely(s, no) && Ordinary(no)
    ensures var s' := K.Push(s, no, packet, now).0; Lonely(s', no) && s'.deadline > now
  {
    CopyQueued(s, no, packet, now);
    hide Lonely, Settle, K.Push;
    SettleKeepsLonely(Queued(s, Entry(no, packet, 0.0), now), no, now);
  }

  /** n copies of one packet, one at every instant, each followed by a tick. */
  function Copies(no: int, packet: Bytes, now: int, n: nat): seq<K.Event>
    decreases n
  {
    if n == 0 then [] else [Arrive(no, packet, now + 1), Timer(now + 1)] + Copies(no, packet, now + 1, n - 1)
  }

  lemma {:induction false} CopiesHold(s: State, no: int, packet: Bytes, now: int, n: nat)
    requires Lonely(s, no) && Ordinary(no)
    ensures Lonely(After(s, Copies(no, packet, now, n)), no)
    ensures n > 0 ==> After(s, Copies(no, packet, now, n)).deadline > now + n
    decreases n
  {
    hide Lonely, K.Push, FlushOldest;
    if n > 0 {
      var evs, rest := Copies(no, packet, now, n), Copies(no, packet, now + 1, n - 1);
      CopyKeepsLonely(s, no, packet, now + 1);
      var s1 := K.Push(s, no, packet, now + 1).0;
      assert evs[1..] == [Timer(now + 1)] + rest && evs[1..][1..] == rest;
      assert After(s, evs) == After(s1, [Timer(now + 1)] + rest) == After(K.Tick(s1, now + 1).0, rest);
      assert K.Tick(s1, now + 1).0 == s1;
      CopiesHold(s1, no, packet, now + 1, n - 1);
    }
  }

  lemma {:induction false} CopiesTicking(no: int, packet: Bytes, now: int, n: nat, period: int)
    requires Ordinary(no) && period >= 1
    ensures Ticking(From(now), Copies(no, packet, now, n) + [Timer(now + n)], period)
    decreases n
  {
    var evs := Copies(no, packet, now, n) + [Timer(now + n)];
    if n == 0 {
      assert evs[1..] == [];
    } else {
      var rest := Copies(no, packet, now + 1, n - 1) + [Timer(now + n)];
      assert evs[1..] == [Timer(now + 1)] + rest && evs[1..][1..] == rest;
      CopiesTicking(no, packet, now + 1, n - 1, period);
    }
  }

  /** For every n there is a run under the timer, however often it runs, that still finds the packet held n later. */
  lemma {:induction false} HeldForever(s: State, no: int, packet: Bytes, t0: int, n: nat, period: int)
    requires Lonely(s, no) && Ordinary(no) && period >= 1
    ensures var evs := Copies(no, packet, t0, n) + [Timer(t0 + n)];
            Ticking(From(t0), evs, period) && (n > 0 ==> Holds(After(s, evs).held, no))
  {
    CopiesTicking(no, packet, t0, n, period);
    CopiesHold(s, no, packet, t0, n);
    SplitRun(s, From(t0), Copies(no, packet, t0, n), t0 + n, period);
  }

  ghost predicate Within(s: State, no: int, t0: int, period: int, limit: int) {
    forall evs, t :: Ticking(From(t0), evs + [Timer(t)], period) && Holds(After(s, evs + [Timer(t)]).held, no) ==>
      t - t0 <= limit
  }

  /** The stall is bounded: some time after t0 no run finds the packet held any more. */
  ghost predicate Bounded(s: State, no: int, t0: int, period: int) {
    exists limit: int :: Within(s, no, t0, period, limit)
  }

  lemma {:induction false} SafeIsBounded(s: State, no: int, t0: int, period: int, m: int)
    requires Watched(s, no, t0, period, t0, m)
    ensures Within(s, no, t0, period, StallLimit(m, s.timeout, period))
  {
    hide Watched, Ticking, After, Holds, StallLimit;
    forall evs, t | Ticking(From(t0), evs + [Timer(t)], period) && Holds(After(s, evs + [Timer(t)]).held, no)
      ensures t - t0 <= StallLimit(m, s.timeout, period)
    {
      WatchedBound(s, no, t0, evs, t, period, m);
    }
  }

  lemma {:induction false} LonelyIsUnbounded(s: State, no: int, t0: int, period: int, limit: int)
    requires Lonely(s, no) && Ordinary(no) && period >= 1
    ensures !Within(s, no, t0, period, limit)
  {
    hide Lonely;
    var n: nat := if limit < 0 then 1 else limit + 1;
    HeldForever(s, no, [0], t0, n, period);
  }

  lemma HeldOrdinary(s: State, i: nat)
    requires AtRest(s) && s.next >= 0 && i < |s.held|
    ensures Ordinary(s.held[i].no)
  {
  }

  /**
   Exactly when a lost packet cannot stall the tunnel.  Take any packet held by a buffer at rest.  The time it can
   still be held, over every run under the timer, is bounded if and only if the packet is escorted, by number
   no - 1 or by any larger number, or there is no timeout.
   */
  lemma {:induction false} StallBoundedExactly(s: State, no: int, t0: int, period: int)
    requires AtRest(s) && s.next >= 0 && s.timeout >= 0 && Fresh(s, t0) && Holds(s.held, no) && period >= 1
    ensures Bounded(s, no, t0, period) <==> Escorted(s, no) || s.timeout == 0
  {
    var i :| 0 <= i < |s.held| && s.held[i].no == no;
    assert Ordinary(no) by { HeldOrdinary(s, i); }
    if Escorted(s, no) || s.timeout == 0 {
      HeldWatched(s, i, t0, period);
      hide Watched, AtRest, Escorted, Within;
      SafeIsBounded(s, no, t0, period, Missing(s.held, s.next, i));
    } else {
      UnescortedIsLonely(s, no);
      hide Lonely, AtRest, Escorted, Within;
      forall limit ensures !Within(s, no, t0, period, limit) { LonelyIsUnbounded(s, no, t0, period, limit); }
    }
  }

  // ----- from a new buffer

  lemma StepFresh(s: State, ev: K.Event, c: Clock, period: int)
    requires AtRest(s) && s.timeout >= 0 && Fresh(s, c.now) && Follows(c, ev, period)
    ensures AtRest(Step(s, ev)) && Step(s, ev).timeout == s.timeout && Fresh(Step(s, ev), At(ev))
  {
    hide AtRest, K.Tick, K.Push;
    match ev
    case Timer(now) => TickDeadline(s, now);
    case Arrive(no, packet, now) =>
      PushRests(s, no, packet, now);
      FreshPush(s, no, packet, now);
  }

  lemma {:induction false} AfterFresh(s: State, evs: seq<K.Event>, c: Clock, period: int)
    requires AtRest(s) && s.timeout >= 0 && Fresh(s, c.now) && Ticking(c, evs, period)
    ensures AtRest(After(s, evs)) && After(s, evs).timeout == s.timeout && Fresh(After(s, evs), Last(c, evs).now)
    decreases |evs|
  {
    hide AtRest, Step;
    if evs != [] {
      StepFresh(s, evs[0], c, period);
      AfterFresh(Step(s, evs[0]), evs[1..], Next(c, evs[0]), period);
    }
  }

  /** Every run of ordinary numbers from a new buffer reaches only states the results above start from. */
  lemma {:induction false} ReachableFresh(timeout: int, capacity: int, evs: seq<K.Event>, c: Clock, period: int)
    requires timeout >= 0 && Ticking(c, evs, period)
    ensures var s := After(New(timeout, capacity), evs);
            AtRest(s) && s.timeout == timeout && Fresh(s, Last(c, evs).now)
  {
    AfterFresh(New(timeout, capacity), evs, c, period);
    hide After, Ticking;
  }

  lemma OneHeld(s: State, no: int, packet: Bytes, now: int)
    requires s.held == [] && 0 <= s.next < no < LONG_MAX && s.timeout >= 1 && s.capacity >= 2
    ensures Lonely(K.Push(s, no, packet, now).0, no)
  {
    var e := Entry(no, packet, 0.0);
    assert Put([], e) == [e];
    K.DrainTurn([e], s.next);
    hide DrainContiguous;
  }

  /**
   The stall from nothing: a new buffer that gets one packet, then one further ahead, and then only copies of that
   one keeps it held for any length of time.
   */
  lemma {:induction false} StallsFromNew(timeout: int, capacity: int, a: int, no: int, packet: Bytes, t0: int, n: nat,
                                         period: int)
    requires timeout >= 1 && capacity >= 2 && 0 <= a && a + 1 < no < LONG_MAX && period >= 1 && n > 0
    ensures var evs := [Arrive(a, packet, t0), Arrive(no, packet, t0)] + (Copies(no, packet, t0, n) + [Timer(t0 + n)]);
            Ticking(From(t0), evs, period) && Holds(After(New(timeout, capacity), evs).held, no)
  {
    var s0 := New(timeout, capacity);
    PassesAlone(s0, a, packet, t0);
    var s1 := K.Push(s0, a, packet, t0).0;
    OneHeld(s1, no, packet, t0);
    var s2 := K.Push(s1, no, packet, t0).0;
    hide K.Push, Lonely;
    var rest := Copies(no, packet, t0, n) + [Timer(t0 + n)];
    HeldForever(s2, no, packet, t0, n, period);
    var evs := [Arrive(a, packet, t0), Arrive(no, packet, t0)] + rest;
    assert evs[1..] == [Arrive(no, packet, t0)] + rest && evs[1..][1..] == rest;
    assert After(s0, evs) == After(s1, evs[1..]) == After(s2, rest);
    assert Next(Next(From(t0), evs[0]), evs[1]) == From(t0);
  }
}
