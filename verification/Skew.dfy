/**
 What the buffer is for: reordering it has the time and the room for is invisible.  If no packet arrives a timeout or
 more after a packet behind it, the whole stream comes out complete and in order, whatever the ticker does meanwhile.
 */
module Skew {
  import opened Bytes
  import opened Resequencer
  import opened ReorderRuns
  import opened Restoration

  // ----- a stream on its way

  function Time(ev: Event): real {
    match ev
    case Arrive(_, _, now) => now
    case Timer(now) => now
    case Shutdown => 0.0
  }

  /** A packet with this number is among the first k events. */
  ghost predicate Seen(evs: seq<Event>, k: nat, no: int)
    requires k <= |evs|
  {
    exists i :: 0 <= i < k && evs[i].Arrive? && evs[i].no == no
  }

  /** The first packet of all, which opens the priming phase. */
  predicate Opener(evs: seq<Event>, f: nat) {
    f < |evs| && evs[f].Arrive? && forall j :: 0 <= j < f ==> !evs[j].Arrive?
  }

  predicate InTimeOrder(evs: seq<Event>) {
    forall i, j :: 0 <= i < j < |evs| ==> Time(evs[i]) <= Time(evs[j])
  }

  /** Arrivals and ticker passes in time order; the arrivals are the packets [lo, hi), each at least once. */
  ghost predicate Complete(evs: seq<Event>, stream: int -> Bytes, lo: int, hi: int) {
    && InTimeOrder(evs)
    && (forall i :: 0 <= i < |evs| ==> !evs[i].Shutdown?)
    && (forall i :: 0 <= i < |evs| && evs[i].Arrive? ==>
          lo <= evs[i].no < hi && evs[i].payload == stream(evs[i].no))
    && (forall no :: lo <= no < hi ==> Seen(evs, |evs|, no))
  }

  /** No packet first arrives a timeout or more after a packet behind it. */
  ghost predicate Skewed(evs: seq<Event>, timeout: real) {
    forall i, j | 0 <= i < j < |evs| && evs[i].Arrive? && evs[j].Arrive? ::
      evs[j].no < evs[i].no && !Seen(evs, j, evs[j].no) ==> evs[j].now < evs[i].now + timeout
  }

  /** No packet arrives a capacity or more ahead of one that is missing. */
  ghost predicate Near(evs: seq<Event>, capacity: int, lo: int) {
    forall i, no :: 0 <= i < |evs| && evs[i].Arrive? && lo <= no <= evs[i].no - capacity ==> Seen(evs, i, no)
  }

  /** Nor, while priming, ahead of the start. */
  ghost predicate Roomy(evs: seq<Event>, timeout: real, capacity: nat, lo: int) {
    && Near(evs, capacity, lo)
    && (forall i, f: nat :: 0 <= i < |evs| && evs[i].Arrive? && Opener(evs, f) && evs[i].now < evs[f].now + timeout ==>
          evs[i].no < lo + capacity)
  }

  ghost predicate Manageable(evs: seq<Event>, timeout: real, capacity: nat, stream: int -> Bytes, lo: int, hi: int) {
    Complete(evs, stream, lo, hi) && Skewed(evs, timeout) && Roomy(evs, timeout, capacity, lo)
  }

  lemma SeenMore(evs: seq<Event>, k: nat, no: int)
    requires k < |evs|
    ensures Seen(evs, k + 1, no) <==> Seen(evs, k, no) || (evs[k].Arrive? && evs[k].no == no)
  {
  }

  /** What has not been seen yet has a first arrival still to come. */
  lemma {:induction false} FirstSeen(evs: seq<Event>, k: nat, no: int) returns (j: nat)
    requires k <= |evs| && !Seen(evs, k, no) && Seen(evs, |evs|, no)
    ensures k <= j < |evs| && evs[j].Arrive? && evs[j].no == no && !Seen(evs, j, no)
    decreases |evs| - k
  {
    if evs[k].Arrive? && evs[k].no == no {
      j := k;
    } else {
      SeenMore(evs, k, no);
      j := FirstSeen(evs, k + 1, no);
    }
  }

  lemma SeenInRange(evs: seq<Event>, k: nat, no: int, b: Buffer, stream: int -> Bytes, lo: int, hi: int)
    requires k <= |evs| && Seen(evs, k, no) && Manageable(evs, b.timeout, b.capacity, stream, lo, hi)
    ensures lo <= no < hi
  {
  }

  // ----- the buffer after the first k events

  /** The entry is a packet that arrived, with the deadline it was given then. */
  ghost predicate Came(e: Entry, evs: seq<Event>, k: nat, timeout: real)
    requires k <= |evs|
  {
    exists i :: 0 <= i < k && evs[i] == Arrive(e.no, e.payload, e.deadline - timeout)
  }

  /** From the position on, exactly what has arrived is held. */
  ghost predicate Holding(b: Buffer, evs: seq<Event>, k: nat)
    requires k <= |evs|
  {
    && (forall i :: 0 <= i < |b.held| ==> Came(b.held[i], evs, k, b.timeout))
    && (forall no :: no >= b.next ==> (Holds(b.held, no) <==> Seen(evs, k, no)))
  }

  /** Still priming: nothing is out, and the position is the least number so far. */
  ghost predicate Opening(b: Buffer, evs: seq<Event>, k: nat)
    requires k <= |evs|
  {
    && (exists f: nat :: f < k && Opener(evs, f) && b.primeDeadline == evs[f].now + b.timeout)
    && (forall no :: Seen(evs, k, no) ==> b.next <= no)
    && Seen(evs, k, b.next)
  }

  ghost predicate Unopened(b: Buffer, evs: seq<Event>, k: nat)
    requires k <= |evs|
  {
    b.held == [] && forall no :: !Seen(evs, k, no)
  }

  /** Out so far: the stream from lo up to the position. */
  ghost predicate Underway(b: Buffer, released: seq<Entry>, stream: int -> Bytes, lo: int, hi: int) {
    lo <= b.next <= hi && Payloads(released) == Section(stream, lo, b.next)
  }

  ghost predicate Sound(b: Buffer, released: seq<Entry>, evs: seq<Event>, k: nat, stream: int -> Bytes, lo: int,
                        hi: int)
    requires k <= |evs|
  {
    && Valid(b) && b.stats.gapSkips == 0 && b.stats.overflowFlushes == 0
    && (if !b.started then Unopened(b, evs, k) && released == []
        else Holding(b, evs, k)
             && if b.priming then Opening(b, evs, k) && released == [] else Underway(b, released, stream, lo, hi))
  }

  /** And at rest between two events: within capacity, and once primed the next packet is yet to come. */
  ghost predicate Kept(b: Buffer, released: seq<Entry>, evs: seq<Event>, k: nat, stream: int -> Bytes, lo: int,
                       hi: int)
    requires k <= |evs|
  {
    && Sound(b, released, evs, k, stream, lo, hi) && |b.held| <= b.capacity
    && (b.started && !b.priming ==> !Seen(evs, k, b.next))
  }

  // ----- draining

  /** The next packet to come is before the deadline of whatever waits behind it. */
  lemma GapCloses(evs: seq<Event>, k: nat, no: int, e: Entry, b: Buffer, stream: int -> Bytes, lo: int, hi: int)
    requires 0 < k <= |evs| && Manageable(evs, b.timeout, b.capacity, stream, lo, hi)
    requires Came(e, evs, k, b.timeout) && lo <= no < e.no && !Seen(evs, k, no)
    ensures Time(evs[k - 1]) < e.deadline
  {
    var i :| 0 <= i < k && evs[i] == Arrive(e.no, e.payload, e.deadline - b.timeout);
    assert Seen(evs, k, e.no);
    var j := FirstSeen(evs, k, no);
    assert Time(evs[k - 1]) <= Time(evs[j]);
  }

  /** Priming does not end before the earliest packet of all is there. */
  lemma StartIsIn(b: Buffer, evs: seq<Event>, k: nat, stream: int -> Bytes, lo: int, hi: int)
    requires 0 < k <= |evs| && Manageable(evs, b.timeout, b.capacity, stream, lo, hi) && Opening(b, evs, k)
    ensures lo <= b.next < hi && (b.next == lo || Time(evs[k - 1]) < b.primeDeadline)
  {
    SeenInRange(evs, k, b.next, b, stream, lo, hi);
    if b.next != lo {
      var f: nat :| f < k && Opener(evs, f) && b.primeDeadline == evs[f].now + b.timeout;
      assert Seen(evs, k, evs[f].no);
      var j := FirstSeen(evs, k, lo);
      assert Time(evs[k - 1]) <= Time(evs[j]);
    }
  }

  lemma AheadOfGap(q: Buffer, stream: int -> Bytes, hi: int)
    requires Valid(q) && forall i :: 0 <= i < |q.held| ==> q.held[i].payload == stream(q.held[i].no)
    ensures var n := q.next + RunLength(q.held, q.next);
            !Holds(q.held, n) && forall i :: RunLength(q.held, q.next) <= i < |q.held| ==> q.held[i].no > n
  {
    var k := RunLength(q.held, q.next);
    RunIsSection(q.held, q.next, stream);
    forall i | k <= i < |q.held| ensures q.held[i].no > q.next + k { BehindRun(q, stream, hi, i); }
    hide RunLength;
  }

  lemma HeldAreGenuine(b: Buffer, evs: seq<Event>, k: nat, stream: int -> Bytes, lo: int, hi: int)
    requires k <= |evs| && Holding(b, evs, k) && Manageable(evs, b.timeout, b.capacity, stream, lo, hi)
    ensures forall i :: 0 <= i < |b.held| ==> lo <= b.held[i].no < hi && b.held[i].payload == stream(b.held[i].no)
  {
    forall i | 0 <= i < |b.held|
      ensures lo <= b.held[i].no < hi && b.held[i].payload == stream(b.held[i].no)
    {
      assert Came(b.held[i], evs, k, b.timeout);
    }
  }

  /** Behind the packets that continue the stream, whatever waits has not expired. */
  lemma WaitsInTime(q: Buffer, evs: seq<Event>, k: nat, stream: int -> Bytes, lo: int, hi: int)
    requires 0 < k <= |evs| && Valid(q) && Holding(q, evs, k) && lo <= q.next
    requires Manageable(evs, q.timeout, q.capacity, stream, lo, hi)
    ensures InTime(q, Time(evs[k - 1]))
  {
    HeldAreGenuine(q, evs, k, stream, lo, hi);
    AheadOfGap(q, stream, hi);
    var r := RunLength(q.held, q.next);
    if r < |q.held| {
      assert !Seen(evs, k, q.next + r);
      assert Came(q.held[r], evs, k, q.timeout);
      hide Manageable, Came, Seen;
      GapCloses(evs, k, q.next + r, q.held[r], q, stream, lo, hi);
    }
  }

  /** A number that is not among the first r is held exactly when it is held behind them. */
  lemma StillHolds(held: seq<Entry>, r: nat, no: int)
    requires r <= |held| && forall i :: 0 <= i < r ==> held[i].no < no
    ensures Holds(held[r..], no) <==> Holds(held, no)
  {
    if Holds(held, no) {
      var i :| 0 <= i < |held| && held[i].no == no;
      assert held[r..][i - r].no == no;
    }
  }

  /** After the gapless front has left, the next packet is one that has not arrived. */
  lemma RunLeaves(q: Buffer, b: Buffer, out: seq<Entry>, evs: seq<Event>, k: nat, stream: int -> Bytes, lo: int,
                  hi: int)
    requires k <= |evs| && Valid(q) && Holding(q, evs, k) && lo <= q.next <= hi && b.timeout == q.timeout
    requires forall i :: 0 <= i < |q.held| ==> q.held[i].no < hi && q.held[i].payload == stream(q.held[i].no)
    requires var r := RunLength(q.held, q.next);
             out == q.held[..r] && b.held == q.held[r..] && b.next == q.next + r
    ensures Holding(b, evs, k) && !Seen(evs, k, b.next) && q.next <= b.next <= hi
    ensures Payloads(out) == Section(stream, q.next, b.next)
  {
    hide Came, Seen, Payloads, Section, RunLength, Valid, Holds;
    RunIsSection(q.held, q.next, stream);
    AheadOfGap(q, stream, hi);
    var r := RunLength(q.held, q.next);
    if r > 0 { assert q.held[r - 1].no == q.next + (r - 1); }
    forall no | no >= b.next ensures Holds(b.held, no) <==> Holds(q.held, no) { StillHolds(q.held, r, no); }
  }

  /** The queue is empty or out of the priming phase: what a drain finds to work on. */
  lemma {:induction false} DrainPrimed(q: Buffer, released: seq<Entry>, evs: seq<Event>, k: nat,
                                       stream: int -> Bytes, lo: int, hi: int)
    requires 0 < k <= |evs| && Manageable(evs, q.timeout, q.capacity, stream, lo, hi) && q.started && !q.priming
    requires Sound(q, released, evs, k, stream, lo, hi)
    ensures var (b, out) := DrainLoop(q, Time(evs[k - 1]));
            && Sound(b, released + out, evs, k, stream, lo, hi) && b.started && !b.priming
            && !Seen(evs, k, b.next) && |b.held| <= |q.held| && b.capacity == q.capacity && b.timeout == q.timeout
  {
    hide Manageable, Came, Seen, DrainLoop, InTime;
    var now := Time(evs[k - 1]);
    WaitsInTime(q, evs, k, stream, lo, hi);
    HeldAreGenuine(q, evs, k, stream, lo, hi);
    DrainInTime(q, now);
    DrainLoopReleases(q, now);
    var (b, out) := DrainLoop(q, now);
    RunLeaves(q, b, out, evs, k, stream, lo, hi);
    SectionsJoin(stream, lo, q.next, b.next, released, out);
  }

  lemma {:induction false} NothingToDrain(q: Buffer, now: real)
    requires q.held == []
    ensures DrainLoop(q, now) == (q, [])
  {
  }

  lemma PrimingOver(q: Buffer, released: seq<Entry>, evs: seq<Event>, k: nat, stream: int -> Bytes, lo: int, hi: int)
    requires k <= |evs| && Sound(q, released, evs, k, stream, lo, hi) && q.started && q.priming && lo == q.next < hi
    ensures Sound(q.(priming := false), released, evs, k, stream, lo, hi)
  {
    hide Came, Seen, Opening;
    assert Payloads([]) == Section(stream, lo, lo);
  }

  lemma DrainSound(q: Buffer, released: seq<Entry>, evs: seq<Event>, k: nat, stream: int -> Bytes, lo: int, hi: int)
    requires 0 < k <= |evs| && Manageable(evs, q.timeout, q.capacity, stream, lo, hi)
    requires Sound(q, released, evs, k, stream, lo, hi)
    ensures var now := Time(evs[k - 1]);
            var (b, out) := Drain(q, now);
            && Sound(b, released + out, evs, k, stream, lo, hi) && b.started == q.started
            && (b.started && !b.priming ==> !Seen(evs, k, b.next)) && (b.priming ==> now < b.primeDeadline)
            && |b.held| <= |q.held| && b.capacity == q.capacity && b.timeout == q.timeout
            && (!q.priming || q.primeDeadline <= now ==> !b.priming)
  {
    hide Manageable, DrainLoop, Holding, Opening, Underway;
    var now, q0 := Time(evs[k - 1]), q.(priming := false);
    if q.priming && now < q.primeDeadline {
      assert released + [] == released;
    } else if !q.started {
      hide Valid;
      assert DrainLoop(q0, now) == (q0, []) by { NothingToDrain(q0, now); }
      assert released + [] == released;
    } else {
      if q.priming {
        StartIsIn(q, evs, k, stream, lo, hi);
        PrimingOver(q, released, evs, k, stream, lo, hi);
      }
      DrainPrimed(q0, released, evs, k, stream, lo, hi);
    }
  }

  // ----- one arrival

  lemma CameStays(e: Entry, evs: seq<Event>, k: nat, timeout: real)
    requires k < |evs| && Came(e, evs, k, timeout)
    ensures Came(e, evs, k + 1, timeout)
  {
  }

  /** The verdict on a packet from the position on: it is refused exactly when it is held already. */
  lemma RefusedIsHeld(b: Buffer, no: int)
    requires Valid(b) && no >= b.next
    ensures Judge(b, no) == Accepted <==> !Holds(b.held, no)
  {
  }

  lemma QueuedHolds(b: Buffer, no: int, payload: Bytes, now: real, n: int)
    requires Valid(b) && b.started && n >= Prime(b, no, now).next
    ensures Holds(Queued(b, no, payload, now).held, n) <==> Holds(b.held, n) || n == no
  {
    hide Holds, Insert;
    PrimeValid(b, no, now);
    var b1 := Prime(b, no, now);
    if no >= b1.next { RefusedIsHeld(b1, no); }
    hide Valid;
    InsertHolds(b1.held, Entry(no, payload, now + b1.timeout), n);
  }

  lemma QueuedCame(b: Buffer, evs: seq<Event>, k: nat)
    requires k < |evs| && evs[k].Arrive? && forall i :: 0 <= i < |b.held| ==> Came(b.held[i], evs, k, b.timeout)
    ensures var q := Queued(b, evs[k].no, evs[k].payload, evs[k].now);
            forall i :: 0 <= i < |q.held| ==> Came(q.held[i], evs, k + 1, q.timeout)
  {
    hide Insert, Judge;
    var e := Entry(evs[k].no, evs[k].payload, evs[k].now + b.timeout);
    InsertMembers(b.held, e);
    assert evs[k] == Arrive(e.no, e.payload, e.deadline - b.timeout);
    assert Came(e, evs, k + 1, b.timeout);
    forall i | 0 <= i < |b.held| ensures Came(b.held[i], evs, k + 1, b.timeout) {
      CameStays(b.held[i], evs, k, b.timeout);
    }
    hide Came;
  }

  lemma NoneBelow(b: Buffer, n: int)
    requires Valid(b) && n < b.next
    ensures !Holds(b.held, n)
  {
  }

  lemma QueuedHolding(b: Buffer, evs: seq<Event>, k: nat)
    requires k < |evs| && evs[k].Arrive? && Valid(b) && b.started && Holding(b, evs, k)
    requires b.priming ==> forall no :: Seen(evs, k, no) ==> b.next <= no
    ensures Holding(Queued(b, evs[k].no, evs[k].payload, evs[k].now), evs, k + 1)
  {
    hide Seen, Came, Holds, Queued;
    var no, payload, now := evs[k].no, evs[k].payload, evs[k].now;
    QueuedCame(b, evs, k);
    QueuedCounts(b, no, payload, now);
    var q := Queued(b, no, payload, now);
    forall n | n >= q.next ensures Holds(q.held, n) <==> Seen(evs, k + 1, n) {
      QueuedHolds(b, no, payload, now, n);
      SeenMore(evs, k, n);
      if n < b.next { NoneBelow(b, n); }
    }
  }

  lemma ArrivalSeen(evs: seq<Event>, k: nat, j: nat)
    requires j < k <= |evs|
    ensures evs[j].Arrive? ==> Seen(evs, k, evs[j].no)
  {
  }

  /** The first packet opens the priming phase with itself as the start. */
  lemma QueuedFirst(b: Buffer, evs: seq<Event>, k: nat)
    requires k < |evs| && evs[k].Arrive? && Valid(b) && !b.started && Unopened(b, evs, k)
    ensures var q := Queued(b, evs[k].no, evs[k].payload, evs[k].now);
            Holding(q, evs, k + 1) && q.priming && Opening(q, evs, k + 1)
  {
    hide Came;
    forall j | 0 <= j < k ensures !evs[j].Arrive? { ArrivalSeen(evs, k, j); }
    hide Seen;
    assert Opener(evs, k);
    var k' := k + 1;
    forall no ensures Seen(evs, k', no) <==> Seen(evs, k, no) || no == evs[k].no { SeenMore(evs, k, no); }
    var e := Entry(evs[k].no, evs[k].payload, evs[k].now + b.timeout);
    var q := Queued(b, evs[k].no, evs[k].payload, evs[k].now);
    assert q.held == [e];
    QueuedCame(b, evs, k);
    assert q.held[0] == e;
  }

  lemma QueuedDeadline(b: Buffer, no: int, payload: Bytes, now: real)
    ensures b.started ==> Queued(b, no, payload, now).primeDeadline == b.primeDeadline
  {
    hide Judge, Insert;
  }

  lemma QueuedOpening(b: Buffer, evs: seq<Event>, k: nat)
    requires k < |evs| && evs[k].Arrive? && Valid(b) && b.started && b.priming && Opening(b, evs, k)
    ensures var q := Queued(b, evs[k].no, evs[k].payload, evs[k].now);
            q.priming && Opening(q, evs, k + 1)
  {
    var no := evs[k].no;
    QueuedCounts(b, no, evs[k].payload, evs[k].now);
    QueuedDeadline(b, no, evs[k].payload, evs[k].now);
    hide Queued;
    var k' := k + 1;
    forall n ensures Seen(evs, k', n) <==> Seen(evs, k, n) || n == no { SeenMore(evs, k, n); }
    hide Seen;
    var f: nat :| f < k && Opener(evs, f) && b.primeDeadline == evs[f].now + b.timeout;
    assert f < k';
  }

  lemma LeastIsNext(b: Buffer, evs: seq<Event>, k: nat)
    requires k <= |evs| && Opening(b, evs, k)
    ensures forall no :: Seen(evs, k, no) ==> b.next <= no
  {
  }

  lemma QueuedSound(b: Buffer, released: seq<Entry>, evs: seq<Event>, k: nat, stream: int -> Bytes, lo: int, hi: int)
    requires k < |evs| && evs[k].Arrive? && Sound(b, released, evs, k, stream, lo, hi)
    ensures Sound(Queued(b, evs[k].no, evs[k].payload, evs[k].now), released, evs, k + 1, stream, lo, hi)
  {
    hide Queued, Holding, Opening, Unopened, Valid, Section, Payloads;
    var no, payload, now := evs[k].no, evs[k].payload, evs[k].now;
    QueuedValid(b, no, payload, now);
    QueuedCounts(b, no, payload, now);
    if !b.started {
      QueuedFirst(b, evs, k);
    } else {
      if b.priming {
        QueuedOpening(b, evs, k);
        LeastIsNext(b, evs, k);
      } else {
        PrimeValid(b, no, now);
      }
      QueuedHolding(b, evs, k);
    }
  }

  // ----- room

  lemma FewBetween(held: seq<Entry>, lo: int, hi: int)
    requires Ascending(held) && lo <= hi && forall i :: 0 <= i < |held| ==> lo <= held[i].no < hi
    ensures |held| <= hi - lo
  {
    if held != [] { Spread(held, |held| - 1); }
  }

  lemma NotFarAhead(evs: seq<Event>, k: nat, no: int, e: Entry, timeout: real, capacity: nat, stream: int -> Bytes,
                    lo: int, hi: int)
    requires k <= |evs| && Manageable(evs, timeout, capacity, stream, lo, hi)
    requires lo <= no && !Seen(evs, k, no) && Came(e, evs, k, timeout)
    ensures e.no < no + capacity
  {
    var i :| 0 <= i < k && evs[i] == Arrive(e.no, e.payload, e.deadline - timeout);
    assert !Seen(evs, i, no);
  }

  /** Behind a packet that is still to come there is less than a capacity of them. */
  lemma PrimedFits(b: Buffer, released: seq<Entry>, evs: seq<Event>, k: nat, stream: int -> Bytes, lo: int, hi: int)
    requires 0 < k <= |evs| && Manageable(evs, b.timeout, b.capacity, stream, lo, hi) && b.started && !b.priming
    requires Sound(b, released, evs, k, stream, lo, hi) && !Seen(evs, k, b.next)
    ensures |b.held| <= b.capacity
  {
    hide Manageable, Came, Seen, Section, Payloads;
    if b.held != [] {
      var last := b.held[|b.held| - 1];
      assert Came(last, evs, k, b.timeout);
      NotFarAhead(evs, k, b.next, last, b.timeout, b.capacity, stream, lo, hi);
      FewBetween(b.held, b.next, last.no + 1);
    }
  }

  lemma NearStart(evs: seq<Event>, k: nat, f: nat, e: Entry, timeout: real, capacity: nat, stream: int -> Bytes,
                  lo: int, hi: int)
    requires 0 < k <= |evs| && Manageable(evs, timeout, capacity, stream, lo, hi) && Came(e, evs, k, timeout)
    requires Opener(evs, f) && Time(evs[k - 1]) < evs[f].now + timeout
    ensures lo <= e.no < lo + capacity
  {
    var j :| 0 <= j < k && evs[j] == Arrive(e.no, e.payload, e.deadline - timeout);
    assert Time(evs[j]) <= Time(evs[k - 1]);
  }

  /** While priming everything that came is less than a capacity ahead of the start. */
  lemma PrimingFits(b: Buffer, released: seq<Entry>, evs: seq<Event>, k: nat, stream: int -> Bytes, lo: int, hi: int)
    requires 0 < k <= |evs| && Manageable(evs, b.timeout, b.capacity, stream, lo, hi) && b.started && b.priming
    requires Sound(b, released, evs, k, stream, lo, hi) && Time(evs[k - 1]) < b.primeDeadline
    ensures |b.held| <= b.capacity
  {
    hide Manageable, Came, Seen, Time;
    var f: nat :| f < k && Opener(evs, f) && b.primeDeadline == evs[f].now + b.timeout;
    forall i | 0 <= i < |b.held| ensures lo <= b.held[i].no < lo + b.capacity {
      assert Came(b.held[i], evs, k, b.timeout);
      NearStart(evs, k, f, b.held[i], b.timeout, b.capacity, stream, lo, hi);
    }
    FewBetween(b.held, lo, lo + b.capacity);
  }

  lemma PushIsQueueThenDrain(b: Buffer, no: int, payload: Bytes, now: real)
    ensures var q := Queued(b, no, payload, now);
            && (Judge(Prime(b, no, now), no) != Accepted ==> Push(b, no, payload, now) == (q, []))
            && (Judge(Prime(b, no, now), no) == Accepted && |Drain(q, now).0.held| <= Drain(q, now).0.capacity ==>
                  Push(b, no, payload, now) == Drain(q, now))
  {
    hide Drain, Judge, Insert;
  }

  lemma DrainedFits(b: Buffer, released: seq<Entry>, evs: seq<Event>, k: nat, stream: int -> Bytes, lo: int, hi: int)
    requires 0 < k <= |evs| && Manageable(evs, b.timeout, b.capacity, stream, lo, hi) && b.started
    requires Sound(b, released, evs, k, stream, lo, hi)
    requires (!b.priming ==> !Seen(evs, k, b.next)) && (b.priming ==> Time(evs[k - 1]) < b.primeDeadline)
    ensures Kept(b, released, evs, k, stream, lo, hi)
  {
    hide Manageable, Sound, Seen;
    if b.priming {
      PrimingFits(b, released, evs, k, stream, lo, hi);
    } else {
      PrimedFits(b, released, evs, k, stream, lo, hi);
    }
  }

  /** A refused packet is not the next one to come. */
  lemma RefusedNext(b: Buffer, released: seq<Entry>, evs: seq<Event>, k: nat, stream: int -> Bytes, lo: int, hi: int)
    requires k < |evs| && evs[k].Arrive? && Kept(b, released, evs, k, stream, lo, hi)
    requires Judge(Prime(b, evs[k].no, evs[k].now), evs[k].no) != Accepted
    ensures var q := Queued(b, evs[k].no, evs[k].payload, evs[k].now);
            q.started && !q.priming ==> !Seen(evs, k + 1, q.next)
  {
    var no, now := evs[k].no, evs[k].now;
    PrimeValid(b, no, now);
    QueuedCounts(b, no, evs[k].payload, now);
    if b.started && !b.priming {
      if no >= b.next { RefusedIsHeld(b, no); }
      SeenMore(evs, k, b.next);
    }
  }

  /** One arrival, first copy or not. */
  lemma ArriveKeeps(b: Buffer, released: seq<Entry>, evs: seq<Event>, k: nat, stream: int -> Bytes, lo: int, hi: int)
    requires k < |evs| && evs[k].Arrive? && Manageable(evs, b.timeout, b.capacity, stream, lo, hi)
    requires Kept(b, released, evs, k, stream, lo, hi)
    ensures var (b', out) := Push(b, evs[k].no, evs[k].payload, evs[k].now);
            && Kept(b', released + out, evs, k + 1, stream, lo, hi)
            && b'.timeout == b.timeout && b'.capacity == b.capacity
  {
    hide Manageable, Seen, Push, Queued, Drain, Holding, Opening, Underway, Judge;
    var no, payload, now := evs[k].no, evs[k].payload, evs[k].now;
    var q := Queued(b, no, payload, now);
    QueuedSound(b, released, evs, k, stream, lo, hi);
    QueuedValid(b, no, payload, now);
    QueuedCounts(b, no, payload, now);
    PushIsQueueThenDrain(b, no, payload, now);
    if Judge(Prime(b, no, now), no) == Accepted {
      DrainSound(q, released, evs, k + 1, stream, lo, hi);
      var (b', out) := Drain(q, now);
      DrainedFits(b', released + out, evs, k + 1, stream, lo, hi);
    } else {
      assert released + [] == released;
      RefusedNext(b, released, evs, k, stream, lo, hi);
    }
  }

  lemma SameSeen(b: Buffer, released: seq<Entry>, evs: seq<Event>, k: nat, stream: int -> Bytes, lo: int, hi: int)
    requires k < |evs| && (evs[k].Arrive? ==> Seen(evs, k, evs[k].no)) && Sound(b, released, evs, k, stream, lo, hi)
    ensures Sound(b, released, evs, k + 1, stream, lo, hi)
    ensures Seen(evs, k + 1, b.next) <==> Seen(evs, k, b.next)
  {
    var k' := k + 1;
    forall no ensures Seen(evs, k', no) <==> Seen(evs, k, no) { SeenMore(evs, k, no); }
    hide Seen;
    forall i | 0 <= i < |b.held| && Came(b.held[i], evs, k, b.timeout) ensures Came(b.held[i], evs, k + 1, b.timeout) {
      CameStays(b.held[i], evs, k, b.timeout);
    }
    hide Came;
    if b.started && b.priming {
      var f: nat :| f < k && Opener(evs, f) && b.primeDeadline == evs[f].now + b.timeout;
      assert f < k';
    }
  }

  /** A copy that never reaches the buffer, of a packet that was there before, makes no difference. */
  lemma RepeatKeeps(b: Buffer, released: seq<Entry>, evs: seq<Event>, k: nat, stream: int -> Bytes, lo: int, hi: int)
    requires k < |evs| && evs[k].Arrive? && Seen(evs, k, evs[k].no) && Kept(b, released, evs, k, stream, lo, hi)
    ensures Kept(b, released, evs, k + 1, stream, lo, hi)
  {
    SameSeen(b, released, evs, k, stream, lo, hi);
  }

  /** One pass of the ticker. */
  lemma TimerKeeps(b: Buffer, released: seq<Entry>, evs: seq<Event>, k: nat, stream: int -> Bytes, lo: int, hi: int)
    requires k < |evs| && evs[k].Timer? && Manageable(evs, b.timeout, b.capacity, stream, lo, hi)
    requires Kept(b, released, evs, k, stream, lo, hi)
    ensures var (b', out) := Tick(b, evs[k].now);
            && Kept(b', released + out, evs, k + 1, stream, lo, hi)
            && b'.timeout == b.timeout && b'.capacity == b.capacity && b'.started == b.started
            && (!b.priming || b.primeDeadline <= evs[k].now ==> !b'.priming)
  {
    hide Manageable, Seen, Drain, Holding, Opening, Underway;
    SameSeen(b, released, evs, k, stream, lo, hi);
    DrainSound(b, released, evs, k + 1, stream, lo, hi);
  }

  // ----- whole runs

  /** The last event is a ticker pass, with priming over by then. */
  ghost predicate Settles(evs: seq<Event>, timeout: real) {
    && evs != [] && evs[|evs| - 1].Timer?
    && forall f: nat :: Opener(evs, f) ==> evs[f].now + timeout <= evs[|evs| - 1].now
  }

  lemma NewKept(timeoutMs: real, capacity: int, memory: Memory, evs: seq<Event>, stream: int -> Bytes, lo: int,
                hi: int)
    ensures Kept(NewBuffer(timeoutMs, capacity, memory), [], evs, 0, stream, lo, hi)
  {
  }

  lemma AllSeen(evs: seq<Event>, no: int, timeout: real, capacity: nat, stream: int -> Bytes, lo: int, hi: int)
    requires Manageable(evs, timeout, capacity, stream, lo, hi) && lo <= no
    ensures no < hi ==> Seen(evs, |evs|, no)
  {
  }

  /** When everything has arrived and priming is over, everything is out. */
  lemma AllOut(b: Buffer, released: seq<Entry>, evs: seq<Event>, stream: int -> Bytes, lo: int, hi: int)
    requires Manageable(evs, b.timeout, b.capacity, stream, lo, hi) && lo <= hi && !b.priming
    requires Kept(b, released, evs, |evs|, stream, lo, hi)
    ensures Payloads(released) == Section(stream, lo, hi) && b.held == []
  {
    if !b.started {
      AllSeen(evs, lo, b.timeout, b.capacity, stream, lo, hi);
    } else {
      AllSeen(evs, b.next, b.timeout, b.capacity, stream, lo, hi);
      HeldAreGenuine(b, evs, |evs|, stream, lo, hi);
      FewBetween(b.held, b.next, hi);
    }
  }

  lemma LastTick(b: Buffer, released: seq<Entry>, evs: seq<Event>, stream: int -> Bytes, lo: int, hi: int)
    requires Manageable(evs, b.timeout, b.capacity, stream, lo, hi) && Settles(evs, b.timeout) && lo <= hi
    requires Kept(b, released, evs, |evs| - 1, stream, lo, hi)
    ensures var (b', out) := Tick(b, evs[|evs| - 1].now);
            && Payloads(released + out) == Section(stream, lo, hi) && b'.held == []
            && b'.stats.gapSkips == 0 && b'.stats.overflowFlushes == 0
  {
    var k := |evs| - 1;
    hide Manageable, Seen, Tick, Holding, Underway, Section;
    TimerKeeps(b, released, evs, k, stream, lo, hi);
    var (b', out) := Tick(b, evs[k].now);
    AllOut(b', released + out, evs, stream, lo, hi);
  }

  lemma NoShutdown(evs: seq<Event>, timeout: real, capacity: nat, stream: int -> Bytes, lo: int, hi: int)
    requires Manageable(evs, timeout, capacity, stream, lo, hi)
    ensures forall i :: 0 <= i < |evs| ==> evs[i].Arrive? || evs[i].Timer?
  {
  }

  lemma {:induction false} RunKept(h: History, evs: seq<Event>, k: nat, n: nat, stream: int -> Bytes, lo: int, hi: int)
    requires k <= n <= |evs| && Manageable(evs, h.buf.timeout, h.buf.capacity, stream, lo, hi)
    requires Kept(h.buf, h.released, evs, k, stream, lo, hi)
    ensures var h' := Run(h, evs[k..n]);
            && Kept(h'.buf, h'.released, evs, n, stream, lo, hi)
            && h'.buf.timeout == h.buf.timeout && h'.buf.capacity == h.buf.capacity
    decreases n - k
  {
    if k < n {
      hide Manageable, Kept, Push, Tick;
      NoShutdown(evs, h.buf.timeout, h.buf.capacity, stream, lo, hi);
      if evs[k].Arrive? {
        ArriveKeeps(h.buf, h.released, evs, k, stream, lo, hi);
      } else {
        TimerKeeps(h.buf, h.released, evs, k, stream, lo, hi);
      }
      assert evs[k..n][0] == evs[k] && evs[k..n][1..] == evs[k + 1..n];
      RunKept(Observe(h, evs[k]), evs, k + 1, n, stream, lo, hi);
    }
  }

  lemma {:induction false} RunLast(h: History, evs: seq<Event>, ev: Event)
    ensures Run(h, evs + [ev]) == Observe(Run(h, evs), ev)
    decreases |evs|
  {
    hide Observe;
    if evs == [] {
      assert ([] + [ev])[1..] == [];
    } else {
      assert (evs + [ev])[1..] == evs[1..] + [ev];
      RunLast(Observe(h, evs[0]), evs[1..], ev);
    }
  }

  /**
   Reordering within the timeout is invisible.  A new buffer gets the packets [lo, hi) in any order and with any
   repeats, and ticker passes at any times.  If no packet first arrives a timeout or more after one behind it, and
   there is room for what has to wait, then exactly the stream comes out, complete and in order, and nothing is skipped.
   */
  lemma {:induction false} ReorderingInvisible(timeoutMs: real, capacity: int, memory: Memory, evs: seq<Event>,
                                               stream: int -> Bytes, lo: int, hi: int)
    requires var b := NewBuffer(timeoutMs, capacity, memory);
             Manageable(evs, b.timeout, b.capacity, stream, lo, hi) && Settles(evs, b.timeout) && lo <= hi
    ensures var h := Run(Start(NewBuffer(timeoutMs, capacity, memory)), evs);
            && Payloads(h.released) == Section(stream, lo, hi) && h.buf.held == []
            && h.buf.stats.gapSkips == 0 && h.buf.stats.overflowFlushes == 0
  {
    var h0, n := Start(NewBuffer(timeoutMs, capacity, memory)), |evs| - 1;
    NewKept(timeoutMs, capacity, memory, evs, stream, lo, hi);
    hide Manageable, Kept, NewBuffer, Section, Payloads, Tick;
    RunKept(h0, evs, 0, n, stream, lo, hi);
    var h := Run(h0, evs[0..n]);
    assert evs == evs[0..n] + [evs[n]];
    RunLast(h0, evs[0..n], evs[n]);
    LastTick(h.buf, h.released, evs, stream, lo, hi);
  }

  /** A burst that fits the buffer and arrives within one timeout of its first packet is always manageable. */
  lemma BurstIsManageable(evs: seq<Event>, f: nat, timeout: real, capacity: nat, stream: int -> Bytes, lo: int, hi: int)
    requires Complete(evs, stream, lo, hi) && hi - lo <= capacity && Opener(evs, f)
    requires forall i :: 0 <= i < |evs| && evs[i].Arrive? ==> evs[i].now < evs[f].now + timeout
    ensures Manageable(evs, timeout, capacity, stream, lo, hi)
  {
    hide Seen;
    forall i | 0 <= i < |evs| && evs[i].Arrive? ensures Time(evs[f]) <= Time(evs[i]) {
      assert i >= f;
    }
  }
}
