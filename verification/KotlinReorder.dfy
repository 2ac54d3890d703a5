/**
 The Android client's own resequencer, core/Reorder.kt.  Its TreeMap is an ascending sequence of entries (their
 deadline field is unused: this buffer keeps one deadline for the whole queue).  Sequence numbers are Kotlin Longs.
 */
module KotlinReorder {
  import opened Bytes
  import opened Resequencer

  const LONG_MIN: int := -0x8000_0000_0000_0000
  const LONG_MAX: int := 0x7FFF_FFFF_FFFF_FFFF

  function Increment(n: int): int {
    if n == LONG_MAX then LONG_MIN else n + 1
  }

  datatype State = State(timeout: int, capacity: int, held: seq<Entry>, next: int, deadline: int)

  function New(timeout: int, capacity: int): State {
    State(timeout, capacity, [], -1, 0)
  }

  /** TreeMap.put: a second copy of a held number replaces the packet. */
  function Put(held: seq<Entry>, e: Entry): seq<Entry> {
    if held == [] || e.no < held[0].no then [e] + held
    else if e.no == held[0].no then [e] + held[1..]
    else [held[0]] + Put(held[1..], e)
  }

  /** TreeMap.remove: what was there, and what is left. */
  function Remove(held: seq<Entry>, no: int): (r: (Option<Entry>, seq<Entry>))
    ensures r.0.Some? ==> |r.1| == |held| - 1
    ensures r.0.None? ==> r.1 == held
  {
    if held == [] then (None, [])
    else if held[0].no == no then (Some(held[0]), held[1..])
    else
      var (e, rest) := Remove(held[1..], no);
      (e, [held[0]] + rest)
  }

  function DrainContiguous(held: seq<Entry>, next: int): (r: (seq<Entry>, seq<Entry>, int))
    decreases |held|
  {
    match Remove(held, next)
    case (None, _) => ([], held, next)
    case (Some(e), rest) =>
      var (out, held', next') := DrainContiguous(rest, Increment(next));
      ([e] + out, held', next')
  }

  function FlushOldest(s: State, now: int): (State, seq<Entry>)
    requires s.held != []
  {
    var (out, held, next) := DrainContiguous(s.held, s.held[0].no);
    (s.(held := held, next := next, deadline := now + s.timeout), out)
  }

  lemma {:induction false} PutNotEmpty(held: seq<Entry>, e: Entry)
    ensures Put(held, e) != []
  {
  }

  /** The opening lines of `push`: the first packet fixes the stream position. */
  function Open(s: State, no: int, now: int): State {
    if s.next < 0 then s.(next := no, deadline := now + s.timeout) else s
  }

  function Queued(s: State, e: Entry, now: int): State {
    var held := Put(s.held, e);
    s.(held := held, deadline := if |held| == 1 then now + s.timeout else s.deadline)
  }

  /** When nothing was contiguous the queue is untouched, so the oldest packet exists when it is asked for. */
  lemma {:induction false} NothingDrained(held: seq<Entry>, next: int)
    requires DrainContiguous(held, next).0 == []
    ensures DrainContiguous(held, next) == ([], held, next)
  {
  }

  /** The rest of `push`: release what is contiguous, or give up on a gap when full or overdue. */
  function Settle(s: State, now: int): (State, seq<Entry>)
    requires s.held != []
  {
    var (ready, held, next) := DrainContiguous(s.held, s.next);
    var s1 := s.(held := held, next := next);
    if ready != [] then (s1.(deadline := now + s.timeout), ready)
    else
      NothingDrained(s.held, s.next);
      if |s1.held| >= s1.capacity || now >= s1.deadline then FlushOldest(s1, now) else (s1, [])
  }

  function Push(s: State, no: int, packet: Bytes, now: int): (State, seq<Entry>) {
    var s1 := Open(s, no, now);
    if no < s1.next then (s1, [])
    else
      PutNotEmpty(s1.held, Entry(no, packet, 0.0));
      Settle(Queued(s1, Entry(no, packet, 0.0), now), now)
  }

  function Tick(s: State, now: int): (State, seq<Entry>) {
    if s.held == [] || now < s.deadline then (s, []) else FlushOldest(s, now)
  }

  // ----- the invariant, for the numbers the client actually sees

  predicate Ordinary(no: int) {
    0 <= no < LONG_MAX
  }

  /** How many packets make the buffer give up on a gap; the smallest queue there is to look at has one. */
  function Room(s: State): int {
    if s.capacity >= 1 then s.capacity else 1
  }

  /** A queue of ordinary numbers at or beyond `next`. */
  ghost predicate Ahead(held: seq<Entry>, next: int) {
    Ascending(held) && forall i :: 0 <= i < |held| ==> next <= held[i].no < LONG_MAX
  }

  /** At rest everything held is ahead of the position and there is room for one more. */
  ghost predicate AtRest(s: State) {
    && Ahead(s.held, s.next + 1)
    && (s.next < 0 ==> s.held == []) && -1 <= s.next <= LONG_MAX
    && |s.held| < Room(s)
  }

  /** The abstract resequencing step of `Resequencer.Releases`: a prefix leaves and the position moves just past it. */
  ghost predicate PrefixLeaves(held: seq<Entry>, next: int, out: seq<Entry>, held': seq<Entry>, next': int) {
    && held == out + held'
    && next' == if out == [] then next else out[|out| - 1].no + 1
  }

  lemma {:induction false} RemoveMissing(held: seq<Entry>, no: int)
    requires forall i :: 0 <= i < |held| ==> held[i].no != no
    ensures Remove(held, no) == (None, held)
  {
    if held != [] { RemoveMissing(held[1..], no); }
  }

  lemma {:induction false} RemoveHead(held: seq<Entry>, no: int)
    requires Ascending(held) && forall i :: 0 <= i < |held| ==> held[i].no >= no
    ensures Remove(held, no) == if held != [] && held[0].no == no then (Some(held[0]), held[1..]) else (None, held)
  {
    if held != [] && held[0].no > no {
      assert forall i :: 0 <= i < |held[1..]| ==> held[1..][i] == held[i + 1];
      RemoveMissing(held, no);
    }
  }

  /** One turn of the drain loop. */
  lemma DrainTurn(held: seq<Entry>, next: int)
    requires Ahead(held, next)
    ensures held == [] || held[0].no > next ==> DrainContiguous(held, next) == ([], held, next)
    ensures held != [] && held[0].no == next ==>
              && Ahead(held[1..], next + 1)
              && var (out, held', next') := DrainContiguous(held[1..], next + 1);
                 DrainContiguous(held, next) == ([held[0]] + out, held', next')
  {
    RemoveHead(held, next);
    hide Remove;
  }

  lemma PrefixGrows(held: seq<Entry>, out: seq<Entry>, held': seq<Entry>, next': int)
    requires held != [] && PrefixLeaves(held[1..], held[0].no + 1, out, held', next')
    ensures PrefixLeaves(held, held[0].no, [held[0]] + out, held', next')
  {
    assert held == [held[0]] + held[1..];
  }

  lemma AheadOfGap(held: seq<Entry>, next: int)
    requires Ahead(held, next)
    ensures held != [] ==> next <= held[0].no < LONG_MAX
    ensures held == [] || held[0].no > next ==> Ahead(held, next + 1) && PrefixLeaves(held, next, [], held, next)
  {
    assert [] + held == held;
  }

  /** Draining is the abstract step, and it leaves the queue strictly ahead of the position. */
  lemma {:induction false} DrainLeavesAhead(held: seq<Entry>, next: int)
    requires Ahead(held, next)
    ensures var (out, held', next') := DrainContiguous(held, next);
            && PrefixLeaves(held, next, out, held', next') && Ahead(held', next' + 1) && next <= next'
            && (held != [] && held[0].no == next ==> out != [])
            && (next <= LONG_MAX ==> next' <= LONG_MAX)
    decreases |held|
  {
    hide DrainContiguous, Ahead, PrefixLeaves;
    DrainTurn(held, next);
    AheadOfGap(held, next);
    if held != [] && held[0].no == next {
      DrainLeavesAhead(held[1..], next + 1);
      var (out, held', next') := DrainContiguous(held[1..], next + 1);
      PrefixGrows(held, out, held', next');
    }
  }

  lemma {:induction false} PutKeeps(held: seq<Entry>, e: Entry, bound: int)
    requires Ascending(held) && forall i :: 0 <= i < |held| ==> bound <= held[i].no
    requires bound <= e.no
    ensures var q := Put(held, e);
            && Ascending(q) && |held| <= |q| <= |held| + 1
            && (forall i :: 0 <= i < |q| ==> bound <= q[i].no)
            && (forall x :: x in q ==> x == e || x in held)
            && e in q
    decreases |held|
  {
    if held != [] && e.no > held[0].no {
      var tail := held[1..];
      assert forall i :: 0 <= i < |tail| ==> tail[i] == held[i + 1];
      PutKeeps(tail, e, held[0].no + 1);
      assert Put(held, e) == [held[0]] + Put(tail, e);
    }
  }

  /** What a push leaves for release. */
  function Queue(s: State, no: int, packet: Bytes): seq<Entry> {
    if s.next >= 0 && no < s.next then s.held else Put(s.held, Entry(no, packet, 0.0))
  }

  /** Flushing the oldest starts at a packet that is there, so something always leaves. */
  lemma FlushRests(s: State, now: int)
    requires s.held != [] && Ahead(s.held, s.next) && |s.held| <= Room(s)
    requires 0 <= s.next
    ensures var (s', out) := FlushOldest(s, now);
            && AtRest(s') && s'.next >= s.next && s'.capacity == s.capacity && out != []
            && PrefixLeaves(s.held, s.next, out, s'.held, s'.next)
  {
    DrainLeavesAhead(s.held, s.held[0].no);
    hide DrainContiguous;
  }

  lemma QueueAhead(s: State, no: int, packet: Bytes)
    requires AtRest(s) && Ordinary(no) && (s.next >= 0 ==> no >= s.next)
    ensures var next := if s.next < 0 then no else s.next;
            var q := Put(s.held, Entry(no, packet, 0.0));
            Ahead(q, next) && |s.held| <= |q| <= |s.held| + 1 && q != [] && 0 <= next
  {
    var next := if s.next < 0 then no else s.next;
    var e := Entry(no, packet, 0.0);
    PutKeeps(s.held, e, next);
    hide Put;
    var q := Put(s.held, e);
    forall i | 0 <= i < |q| ensures q[i].no < LONG_MAX { assert q[i] in q; }
  }

  lemma SettleRests(s: State, now: int)
    requires s.held != [] && Ahead(s.held, s.next) && 0 <= s.next <= LONG_MAX
    requires |s.held| <= Room(s)
    ensures var (s', out) := Settle(s, now);
            && AtRest(s') && s'.next >= s.next && s'.capacity == s.capacity
            && PrefixLeaves(s.held, s.next, out, s'.held, s'.next)
  {
    hide DrainContiguous, Ahead, FlushOldest;
    DrainLeavesAhead(s.held, s.next);
    if DrainContiguous(s.held, s.next).0 == [] {
      NothingDrained(s.held, s.next);
      FlushRests(s, now);
    }
  }

  /** A push of an ordinary number is an abstract step from its queue, and the buffer comes to rest. */
  lemma PushRests(s: State, no: int, packet: Bytes, now: int)
    requires AtRest(s) && Ordinary(no)
    ensures var (s', out) := Push(s, no, packet, now);
            && AtRest(s') && s'.next >= 0 && s'.next >= s.next && s'.capacity == s.capacity
            && PrefixLeaves(Queue(s, no, packet), if s.next < 0 then no else s.next, out, s'.held, s'.next)
  {
    var next := if s.next < 0 then no else s.next;
    if no >= next {
      QueueAhead(s, no, packet);
      hide Settle, Ahead, Put;
      SettleRests(Queued(Open(s, no, now), Entry(no, packet, 0.0), now), now);
    } else {
      assert [] + s.held == s.held;
    }
  }

  lemma TickRests(s: State, now: int)
    requires AtRest(s)
    ensures var (s', out) := Tick(s, now);
            && AtRest(s') && s'.next >= s.next && s'.capacity == s.capacity
            && PrefixLeaves(s.held, s.next, out, s'.held, s'.next)
            && (now >= s.deadline && s.held != [] ==> out != [])
  {
    if s.held == [] || now < s.deadline {
      assert [] + s.held == s.held;
    } else {
      FlushRests(s, now);
    }
  }

  // ----- whole runs

  datatype Event = Arrive(no: int, packet: Bytes, now: int) | Timer(now: int)

  datatype History = History(buf: State, arrived: seq<Entry>, released: seq<Entry>)

  function Observe(h: History, ev: Event): History {
    match ev
    case Arrive(no, packet, now) =>
      var (s, out) := Push(h.buf, no, packet, now);
      History(s, h.arrived + [Entry(no, packet, 0.0)], h.released + out)
    case Timer(now) =>
      var (s, out) := Tick(h.buf, now);
      History(s, h.arrived, h.released + out)
  }

  function Run(h: History, evs: seq<Event>): History
    decreases |evs|
  {
    if evs == [] then h else Run(Observe(h, evs[0]), evs[1..])
  }

  ghost predicate Sound(h: History) {
    && AtRest(h.buf)
    && Ascending(h.released)
    && (forall i :: 0 <= i < |h.released| ==> h.released[i].no < h.buf.next)
    && (h.buf.next < 0 ==> h.released == [])
    && (forall e :: e in h.released || e in h.buf.held ==> e in h.arrived)
  }

  lemma ReleaseSound(released: seq<Entry>, queue: seq<Entry>, next: int, out: seq<Entry>, held: seq<Entry>, next': int)
    requires Ascending(released) && Ascending(queue) && PrefixLeaves(queue, next, out, held, next')
    requires forall i :: 0 <= i < |released| ==> released[i].no < next
    requires forall i :: 0 <= i < |queue| ==> next <= queue[i].no
    ensures Ascending(released + out)
    ensures forall i :: 0 <= i < |released + out| ==> (released + out)[i].no < next'
  {
    assert forall i :: 0 <= i < |out| ==> out[i] == queue[i];
  }

  lemma OnlyArrived(h: History, queue: seq<Entry>, arrived: seq<Entry>, out: seq<Entry>, held: seq<Entry>)
    requires queue == out + held && forall e :: e in h.arrived ==> e in arrived
    requires forall e :: e in h.released ==> e in h.arrived
    requires forall e :: e in queue ==> e in arrived
    ensures forall e :: e in h.released + out || e in held ==> e in arrived
  {
    assert forall e :: e in out || e in held ==> e in queue;
  }

  lemma TimerSound(h: History, now: int)
    requires Sound(h)
    ensures Sound(Observe(h, Timer(now)))
  {
    TickRests(h.buf, now);
    var (s, out) := Tick(h.buf, now);
    hide Tick, AtRest;
    ReleaseSound(h.released, h.buf.held, h.buf.next, out, s.held, s.next);
    OnlyArrived(h, h.buf.held, h.arrived, out, s.held);
  }

  lemma ArriveSound(h: History, no: int, packet: Bytes, now: int)
    requires Sound(h) && Ordinary(no)
    ensures Sound(Observe(h, Arrive(no, packet, now)))
  {
    hide Push, Put;
    var next := if h.buf.next < 0 then no else h.buf.next;
    var e := Entry(no, packet, 0.0);
    if no >= next { PutKeeps(h.buf.held, e, next); }
    PushRests(h.buf, no, packet, now);
    hide AtRest;
    var (s, out) := Push(h.buf, no, packet, now);
    var queue := Queue(h.buf, no, packet);
    ReleaseSound(h.released, queue, next, out, s.held, s.next);
    OnlyArrived(h, queue, h.arrived + [e], out, s.held);
  }

  lemma ObserveSound(h: History, ev: Event)
    requires Sound(h) && (ev.Arrive? ==> Ordinary(ev.no))
    ensures Sound(Observe(h, ev))
  {
    match ev
    case Timer(now) => TimerSound(h, now);
    case Arrive(no, packet, now) => ArriveSound(h, no, packet, now);
  }

  lemma {:induction false} RunSound(h: History, evs: seq<Event>)
    requires Sound(h) && forall i :: 0 <= i < |evs| ==> evs[i].Arrive? ==> Ordinary(evs[i].no)
    ensures Sound(Run(h, evs))
    decreases |evs|
  {
    if evs != [] {
      ObserveSound(h, evs[0]);
      hide Observe, Sound;
      RunSound(Observe(h, evs[0]), evs[1..]);
    }
  }

  lemma {:induction false} RunKeepsCapacity(h: History, evs: seq<Event>)
    requires Sound(h) && forall i :: 0 <= i < |evs| ==> evs[i].Arrive? ==> Ordinary(evs[i].no)
    ensures Run(h, evs).buf.capacity == h.buf.capacity
    decreases |evs|
  {
    if evs != [] {
      ObserveSound(h, evs[0]);
      match evs[0] {
        case Timer(now) => TickRests(h.buf, now);
        case Arrive(no, packet, now) => PushRests(h.buf, no, packet, now);
      }
      hide Push, Tick, Sound;
      RunKeepsCapacity(Observe(h, evs[0]), evs[1..]);
    }
  }

  /**
   Every run of ordinary numbers through a new buffer: packets come out in strictly increasing order, followed by
   what is held; each is one that arrived; and the buffer always rests below its capacity.
   */
  lemma {:induction false} RunsAreOrdered(timeout: int, capacity: int, evs: seq<Event>)
    requires forall i :: 0 <= i < |evs| ==> evs[i].Arrive? ==> Ordinary(evs[i].no)
    ensures var h := Run(History(New(timeout, capacity), [], []), evs);
            && Ascending(h.released + h.buf.held)
            && (forall e :: e in h.released + h.buf.held ==> e in h.arrived)
            && |h.buf.held| < Room(h.buf) && h.buf.capacity == capacity
  {
    RunSound(History(New(timeout, capacity), [], []), evs);
    RunKeepsCapacity(History(New(timeout, capacity), [], []), evs);
  }

  /** The first packet of an empty buffer passes straight through. */
  lemma PassesAlone(s: State, no: int, packet: Bytes, now: int)
    requires s.held == [] && s.next < 0 && LONG_MIN < no
    ensures var (s', out) := Push(s, no, packet, now);
            out == [Entry(no, packet, 0.0)] && s'.held == [] && s'.next == Increment(no)
  {
    var e := Entry(no, packet, 0.0);
    assert Put([], e) == [e] && [e][1..] == [];
    assert DrainContiguous([], Increment(no)) == ([], [], Increment(no));
    assert DrainContiguous([e], no) == ([e], [], Increment(no));
  }

  /**
   The end of the number space.  After the largest Long the position wraps to a negative number, which `push` takes
   for a buffer that has not started, so the next packet restarts the stream wherever it is.
   */
  lemma WrapsAtTheEnd(timeout: int, capacity: int, packet: Bytes, now: int)
    ensures var (s1, out1) := Push(New(timeout, capacity), LONG_MAX, packet, now);
            var (s2, out2) := Push(s1, 5, packet, now);
            && out1 == [Entry(0x7FFF_FFFF_FFFF_FFFF, packet, 0.0)] && s1.next == -0x8000_0000_0000_0000
            && out2 == [Entry(5, packet, 0.0)]
  {
    PassesAlone(New(timeout, capacity), LONG_MAX, packet, now);
    PassesAlone(Push(New(timeout, capacity), LONG_MAX, packet, now).0, 5, packet, now);
  }
}
