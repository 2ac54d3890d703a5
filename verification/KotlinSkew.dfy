/**
 The Android buffer keeps the promise the Python one keeps, under the same conditions and with no priming phase: from
 the first packet it gets, reordering it has the time and the room for is invisible.
 */
module KotlinSkew {
  import opened Bytes
  import opened Resequencer
  import opened ReorderRuns
  import opened Restoration
  import opened Skew
  import K = KotlinReorder
  import KotlinTiming

  /** The same arrivals and timer runs on a clock of real numbers. */
  function AsEvent(ev: K.Event): Event {
    match ev
    case Arrive(no, packet, now) => Arrive(no, packet, now as real)
    case Timer(now) => Timer(now as real)
  }

  function AsEvents(evs: seq<K.Event>): seq<Event> {
    seq(|evs|, i requires 0 <= i < |evs| => AsEvent(evs[i]))
  }

  /**
   The conditions: the packets [lo, hi) all arrive, lo first; none first arrives a timeout or more after one behind
   it, and none a capacity or more ahead of one that is missing.
   */
  ghost predicate Gentle(evs: seq<Event>, timeout: int, capacity: int, stream: int -> Bytes, lo: int, hi: int) {
    && 0 <= lo < hi <= K.LONG_MAX
    && Complete(evs, stream, lo, hi) && Skewed(evs, timeout as real) && Near(evs, capacity, lo)
    && forall f: nat :: Opener(evs, f) ==> evs[f].no == lo
  }

  /** What is held is genuine, and from the position on it is exactly what has arrived. */
  ghost predicate Holding(held: seq<Entry>, next: int, evs: seq<Event>, k: nat, stream: int -> Bytes)
    requires k <= |evs|
  {
    && (forall i :: 0 <= i < |held| ==> held[i].payload == stream(held[i].no))
    && (forall no :: no >= next ==> (Holds(held, no) <==> Seen(evs, k, no)))
  }

  /** The deadline leaves a whole timeout to some packet that arrived behind the next one to come. */
  ghost predicate Patient(s: K.State, evs: seq<Event>, k: nat)
    requires k <= |evs|
  {
    exists i :: 0 <= i < k && evs[i].Arrive? && evs[i].no > s.next
      && evs[i].now + s.timeout as real <= s.deadline as real
  }

  ghost predicate Kept(s: K.State, released: seq<Entry>, evs: seq<Event>, k: nat, stream: int -> Bytes, lo: int,
                       hi: int)
    requires k <= |evs|
  {
    && K.AtRest(s)
    && (if s.next < 0 then released == [] && forall no :: !Seen(evs, k, no)
        else
          && lo <= s.next <= hi && Payloads(released) == Section(stream, lo, s.next)
          && !Seen(evs, k, s.next) && Holding(s.held, s.next, evs, k, stream))
    && (s.held != [] ==> Patient(s, evs, k))
  }

  /** The next packet to come is before the deadline. */
  lemma TimeLeft(s: K.State, evs: seq<Event>, k: nat, stream: int -> Bytes, lo: int, hi: int)
    requires 0 < k <= |evs| && Gentle(evs, s.timeout, s.capacity, stream, lo, hi)
    requires lo <= s.next && !Seen(evs, k, s.next) && Patient(s, evs, k)
    ensures Time(evs[k - 1]) < s.deadline as real
  {
    var i :| 0 <= i < k && evs[i].Arrive? && evs[i].no > s.next && evs[i].now + s.timeout as real <= s.deadline as real;
    var j := FirstSeen(evs, k, s.next);
    assert Time(evs[k - 1]) <= Time(evs[j]);
  }

  /** What a drain releases is consecutive. */
  lemma {:induction false} DrainsInTurn(held: seq<Entry>, next: int)
    requires K.Ahead(held, next)
    ensures var (out, _, next') := K.DrainContiguous(held, next);
            next' == next + |out| && forall i :: 0 <= i < |out| ==> out[i].no == next + i
    decreases |held|
  {
    hide K.DrainContiguous;
    K.DrainTurn(held, next);
    K.AheadOfGap(held, next);
    if held != [] && held[0].no == next { DrainsInTurn(held[1..], next + 1); }
  }

  lemma {:induction false} PutGenuine(held: seq<Entry>, next: int, evs: seq<Event>, k: nat, stream: int -> Bytes)
    requires k < |evs| && evs[k].Arrive? && Ascending(held) && Holding(held, next, evs, k, stream)
    requires evs[k].payload == stream(evs[k].no) && forall i :: 0 <= i < |held| ==> next <= held[i].no
    requires next <= evs[k].no
    ensures Holding(K.Put(held, Entry(evs[k].no, evs[k].payload, 0.0)), next, evs, k + 1, stream)
  {
    hide Seen, Holds;
    var e, k' := Entry(evs[k].no, evs[k].payload, 0.0), k + 1;
    var q := K.Put(held, e);
    K.PutKeeps(held, e, next);
    forall i | 0 <= i < |q| ensures q[i].payload == stream(q[i].no) { assert q[i] in q; }
    forall no | no >= next ensures Holds(q, no) <==> Seen(evs, k', no) {
      KotlinTiming.PutHolds(held, e, no);
      SeenMore(evs, k, no);
    }
  }

  lemma NotFarAhead(evs: seq<Event>, k: nat, next: int, no: int, timeout: int, capacity: int, stream: int -> Bytes,
                    lo: int, hi: int)
    requires k <= |evs| && Gentle(evs, timeout, capacity, stream, lo, hi)
    requires lo <= next && !Seen(evs, k, next) && Seen(evs, k, no)
    ensures no < next + capacity
  {
    var i :| 0 <= i < k && evs[i].Arrive? && evs[i].no == no;
    assert !Seen(evs, i, next);
  }

  lemma ClearOf(held: seq<Entry>, next: int, evs: seq<Event>, k: nat, stream: int -> Bytes)
    requires k <= |evs| && Holding(held, next, evs, k, stream) && !Seen(evs, k, next)
    ensures forall i :: 0 <= i < |held| ==> held[i].no != next
  {
    hide Seen;
    assert forall i :: 0 <= i < |held| ==> Holds(held, held[i].no);
  }

  lemma HeldSeen(held: seq<Entry>, next: int, i: nat, evs: seq<Event>, k: nat, stream: int -> Bytes)
    requires k <= |evs| && i < |held| && Holding(held, next, evs, k, stream) && held[i].no >= next
    ensures Seen(evs, k, held[i].no)
  {
    hide Seen;
    assert Holds(held, held[i].no);
  }

  /** There is room for whatever waits behind a packet that is still to come. */
  lemma QueueFits(q: seq<Entry>, next: int, evs: seq<Event>, k: nat, timeout: int, capacity: int, stream: int -> Bytes,
                  lo: int, hi: int)
    requires k <= |evs| && Gentle(evs, timeout, capacity, stream, lo, hi) && Holding(q, next, evs, k, stream)
    requires K.Ahead(q, next) && lo <= next && !Seen(evs, k, next) && q != []
    ensures |q| < capacity
  {
    hide Gentle, Seen, Holding;
    var last := q[|q| - 1];
    HeldSeen(q, next, |q| - 1, evs, k, stream);
    NotFarAhead(evs, k, next, last.no, timeout, capacity, stream, lo, hi);
    ClearOf(q, next, evs, k, stream);
    assert forall j :: 0 <= j < |q| ==> next + 1 <= q[j].no < last.no + 1;
    FewBetween(q, next + 1, last.no + 1);
  }

  lemma FirstArrives(s: K.State, evs: seq<Event>, k: nat, stream: int -> Bytes, lo: int, hi: int)
    requires k < |evs| && evs[k].Arrive? && Gentle(evs, s.timeout, s.capacity, stream, lo, hi)
    requires s.next < 0 && Kept(s, [], evs, k, stream, lo, hi)
    ensures evs[k].no == lo && evs[k].payload == stream(lo)
    ensures var k' := k + 1; forall no :: Seen(evs, k', no) <==> no == lo
  {
    forall j | 0 <= j < k ensures !evs[j].Arrive? { ArrivalSeen(evs, k, j); }
    assert Opener(evs, k);
    var k' := k + 1;
    forall no ensures Seen(evs, k', no) <==> no == lo { SeenMore(evs, k, no); }
  }

  lemma PushKeepsSize(s: K.State, no: int, packet: Bytes, now: int)
    ensures var s' := K.Push(s, no, packet, now).0; s'.timeout == s.timeout && s'.capacity == s.capacity
  {
    hide K.DrainContiguous, K.Put;
  }

  lemma FirstKept(s: K.State, evs: seq<Event>, k: nat, now: int, stream: int -> Bytes, lo: int, hi: int)
    requires k < |evs| && evs[k].Arrive? && evs[k].now == now as real
    requires Gentle(evs, s.timeout, s.capacity, stream, lo, hi) && s.next < 0 && Kept(s, [], evs, k, stream, lo, hi)
    ensures var (s', out) := K.Push(s, evs[k].no, evs[k].payload, now);
            Kept(s', [] + out, evs, k + 1, stream, lo, hi) && s'.timeout == s.timeout && s'.capacity == s.capacity
  {
    FirstArrives(s, evs, k, stream, lo, hi);
    K.PushRests(s, lo, stream(lo), now);
    K.PassesAlone(s, lo, stream(lo), now);
    PushKeepsSize(s, lo, stream(lo), now);
    hide K.Push, Gentle, Seen;
    var (s', out) := K.Push(s, lo, stream(lo), now);
    assert Payloads([] + out) == Section(stream, lo, lo + 1);
    assert forall no :: no >= lo + 1 ==> !Holds([], no);
  }

  lemma GenuineSection(held: seq<Entry>, r: nat, next: int, stream: int -> Bytes)
    requires r <= |held| && forall i :: 0 <= i < r ==> held[i].no == next + i
    requires forall i :: 0 <= i < |held| ==> held[i].payload == stream(held[i].no)
    ensures Payloads(held[..r]) == Section(stream, next, next + r)
  {
  }

  lemma TailHolding(held: seq<Entry>, r: nat, next: int, next': int, evs: seq<Event>, k: nat, stream: int -> Bytes)
    requires k <= |evs| && Holding(held, next, evs, k, stream) && r <= |held| && next <= next'
    requires forall i :: 0 <= i < r ==> held[i].no < next'
    ensures Holding(held[r..], next', evs, k, stream)
  {
    hide Seen;
    forall no | no >= next' ensures Holds(held[r..], no) <==> Seen(evs, k, no) { StillHolds(held, r, no); }
  }

  lemma SeenSince(evs: seq<Event>, k: nat, no: int, timeout: int, capacity: int, stream: int -> Bytes, lo: int, hi: int)
    requires 0 < k <= |evs| && Seen(evs, k, no) && Gentle(evs, timeout, capacity, stream, lo, hi)
    ensures exists i :: 0 <= i < k && evs[i].Arrive? && evs[i].no == no && evs[i].now <= Time(evs[k - 1])
  {
    var i :| 0 <= i < k && evs[i].Arrive? && evs[i].no == no;
    assert Time(evs[i]) <= Time(evs[k - 1]);
  }

  lemma PatientAnew(q: K.State, r: nat, next': int, now: int, evs: seq<Event>, k: nat, stream: int -> Bytes, lo: int,
                    hi: int)
    requires 0 < k <= |evs| && Time(evs[k - 1]) == now as real && Gentle(evs, q.timeout, q.capacity, stream, lo, hi)
    requires Holding(q.held, q.next, evs, k, stream) && r < |q.held| && q.next <= next' < q.held[r].no
    ensures Patient(q.(held := q.held[r..], next := next', deadline := now + q.timeout), evs, k)
  {
    hide Gentle, Seen, Holds, Holding;
    HeldSeen(q.held, q.next, r, evs, k, stream);
    SeenSince(evs, k, q.held[r].no, q.timeout, q.capacity, stream, lo, hi);
  }

  lemma SeenBelow(evs: seq<Event>, k: nat, no: int, timeout: int, capacity: int, stream: int -> Bytes, lo: int, hi: int)
    requires k <= |evs| && Seen(evs, k, no) && Gentle(evs, timeout, capacity, stream, lo, hi)
    ensures lo <= no < hi
  {
  }

  lemma MissingNext(held: seq<Entry>, next: int, evs: seq<Event>, k: nat, stream: int -> Bytes)
    requires k <= |evs| && Holding(held, next, evs, k, stream) && K.Ahead(held, next + 1)
    ensures !Seen(evs, k, next)
  {
    hide Seen;
    assert !Holds(held, next);
  }

  /** What is left after a drain, and the time it has. */
  lemma DrainedKept(q: K.State, released: seq<Entry>, evs: seq<Event>, k: nat, now: int, stream: int -> Bytes, lo: int,
                    hi: int)
    requires 0 < k <= |evs| && Time(evs[k - 1]) == now as real && Gentle(evs, q.timeout, q.capacity, stream, lo, hi)
    requires K.Ahead(q.held, q.next) && lo <= q.next && Holding(q.held, q.next, evs, k, stream)
    requires Payloads(released) == Section(stream, lo, q.next)
    requires K.DrainContiguous(q.held, q.next).0 != []
    ensures var (out, held', next') := K.DrainContiguous(q.held, q.next);
            && lo <= next' <= hi && Payloads(released + out) == Section(stream, lo, next')
            && !Seen(evs, k, next') && Holding(held', next', evs, k, stream)
            && (held' != [] ==> Patient(q.(held := held', next := next', deadline := now + q.timeout), evs, k))
  {
    hide K.DrainContiguous, Gentle, Seen, Holds, Patient, Payloads, Section;
    K.DrainLeavesAhead(q.held, q.next);
    DrainsInTurn(q.held, q.next);
    var (out, held', next') := K.DrainContiguous(q.held, q.next);
    var r := |out|;
    assert out == q.held[..r] && held' == q.held[r..];
    forall i | 0 <= i < r ensures q.held[i].no == q.next + i { assert q.held[i] == out[i]; }
    GenuineSection(q.held, r, q.next, stream);
    SectionsJoin(stream, lo, q.next, next', released, out);
    TailHolding(q.held, r, q.next, next', evs, k, stream);
    MissingNext(held', next', evs, k, stream);
    HeldSeen(q.held, q.next, r - 1, evs, k, stream);
    SeenBelow(evs, k, q.held[r - 1].no, q.timeout, q.capacity, stream, lo, hi);
    if held' != [] {
      assert held'[0] == q.held[r];
      PatientAnew(q, r, next', now, evs, k, stream, lo, hi);
    }
  }

  /** A packet at or beyond the position: it goes out with what it completes, or waits with time and room to spare. */
  lemma SettleKept(q: K.State, released: seq<Entry>, evs: seq<Event>, k: nat, now: int, stream: int -> Bytes, lo: int,
                   hi: int)
    requires 0 < k <= |evs| && Time(evs[k - 1]) == now as real && Gentle(evs, q.timeout, q.capacity, stream, lo, hi)
    requires K.Ahead(q.held, q.next) && 0 <= lo <= q.next <= hi && Holding(q.held, q.next, evs, k, stream)
    requires Payloads(released) == Section(stream, lo, q.next) && q.held != []
    requires !Seen(evs, k, q.next) ==> Patient(q, evs, k)
    requires K.AtRest(K.Settle(q, now).0)
    ensures var (s', out) := K.Settle(q, now); Kept(s', released + out, evs, k, stream, lo, hi)
  {
    hide Gentle, Seen, Holding, Patient, Payloads, Section, K.DrainContiguous, K.Ahead, K.AtRest;
    if K.DrainContiguous(q.held, q.next).0 != [] {
      DrainedKept(q, released, evs, k, now, stream, lo, hi);
    } else {
      K.NothingDrained(q.held, q.next);
      K.DrainLeavesAhead(q.held, q.next);
      MissingNext(q.held, q.next, evs, k, stream);
      TimeLeft(q, evs, k, stream, lo, hi);
      QueueFits(q.held, q.next, evs, k, q.timeout, q.capacity, stream, lo, hi);
      assert released + [] == released;
    }
  }

  lemma KeptRests(s: K.State, released: seq<Entry>, evs: seq<Event>, k: nat, stream: int -> Bytes, lo: int, hi: int)
    requires k <= |evs| && Kept(s, released, evs, k, stream, lo, hi)
    ensures K.AtRest(s)
  {
  }

  lemma RestIsAhead(s: K.State)
    requires K.AtRest(s)
    ensures K.Ahead(s.held, s.next)
  {
  }

  lemma ArrivesGenuine(evs: seq<Event>, k: nat, timeout: int, capacity: int, stream: int -> Bytes, lo: int, hi: int)
    requires k < |evs| && evs[k].Arrive? && Gentle(evs, timeout, capacity, stream, lo, hi)
    ensures lo <= evs[k].no < hi && evs[k].payload == stream(evs[k].no) && K.Ordinary(evs[k].no)
  {
  }

  lemma PatientStays(s: K.State, evs: seq<Event>, k: nat)
    requires k < |evs| && Patient(s, evs, k)
    ensures Patient(s, evs, k + 1)
  {
  }

  lemma QueuedPatient(s: K.State, released: seq<Entry>, evs: seq<Event>, k: nat, now: int, stream: int -> Bytes,
                      lo: int, hi: int)
    requires k < |evs| && evs[k].Arrive? && evs[k].now == now as real && 0 <= s.next <= evs[k].no
    requires Kept(s, released, evs, k, stream, lo, hi)
    ensures var q := K.Queued(s, Entry(evs[k].no, evs[k].payload, 0.0), now);
            !Seen(evs, k + 1, q.next) ==> Patient(q, evs, k + 1)
  {
    SeenMore(evs, k, s.next);
    hide Seen;
    var e := Entry(evs[k].no, evs[k].payload, 0.0);
    var q := K.Queued(s, e, now);
    if s.held == [] {
      assert K.Put([], e) == [e];
    } else {
      PatientStays(s, evs, k);
    }
    if |q.held| == 1 && evs[k].no > s.next {
      assert evs[k].now + q.timeout as real <= q.deadline as real;
    }
  }

  /** The queue with the new packet in it meets what a release needs. */
  lemma QueuedKept(s: K.State, released: seq<Entry>, evs: seq<Event>, k: nat, now: int, stream: int -> Bytes, lo: int,
                   hi: int)
    requires k < |evs| && evs[k].Arrive? && evs[k].now == now as real && 0 <= s.next <= evs[k].no
    requires Gentle(evs, s.timeout, s.capacity, stream, lo, hi) && Kept(s, released, evs, k, stream, lo, hi)
    ensures var q := K.Queued(s, Entry(evs[k].no, evs[k].payload, 0.0), now);
            && q.timeout == s.timeout && q.capacity == s.capacity && q.next == s.next && q.held != []
            && K.Ahead(q.held, q.next) && 0 <= lo <= q.next <= hi && Holding(q.held, q.next, evs, k + 1, stream)
            && Payloads(released) == Section(stream, lo, q.next)
            && (!Seen(evs, k + 1, q.next) ==> Patient(q, evs, k + 1))
  {
    hide Seen, Holding, Patient, Payloads, Section, K.Put, K.Ahead;
    ArrivesGenuine(evs, k, s.timeout, s.capacity, stream, lo, hi);
    K.QueueAhead(s, evs[k].no, evs[k].payload);
    RestIsAhead(s);
    PutGenuine(s.held, s.next, evs, k, stream);
    QueuedPatient(s, released, evs, k, now, stream, lo, hi);
  }

  /** When nothing new arrives the promise is the same. */
  lemma IdleKept(s: K.State, released: seq<Entry>, evs: seq<Event>, k: nat, stream: int -> Bytes, lo: int, hi: int)
    requires k < |evs| && Kept(s, released, evs, k, stream, lo, hi)
    requires var k' := k + 1; forall no :: no >= s.next || s.next < 0 ==> (Seen(evs, k', no) <==> Seen(evs, k, no))
    ensures Kept(s, released, evs, k + 1, stream, lo, hi)
  {
    hide Seen, Patient, Holds, K.AtRest, Payloads, Section;
    if s.held != [] { PatientStays(s, evs, k); }
  }

  lemma ArriveKept(s: K.State, released: seq<Entry>, evs: seq<Event>, k: nat, now: int, stream: int -> Bytes, lo: int,
                   hi: int)
    requires k < |evs| && evs[k].Arrive? && evs[k].now == now as real && s.next >= 0
    requires Gentle(evs, s.timeout, s.capacity, stream, lo, hi) && Kept(s, released, evs, k, stream, lo, hi)
    ensures var (s', out) := K.Push(s, evs[k].no, evs[k].payload, now);
            Kept(s', released + out, evs, k + 1, stream, lo, hi) && s'.timeout == s.timeout && s'.capacity == s.capacity
  {
    hide Gentle, Kept, Seen, K.Settle, K.Queued, Payloads, Section;
    var no, packet := evs[k].no, evs[k].payload;
    KeptRests(s, released, evs, k, stream, lo, hi);
    ArrivesGenuine(evs, k, s.timeout, s.capacity, stream, lo, hi);
    K.PushRests(s, no, packet, now);
    PushKeepsSize(s, no, packet, now);
    if no < s.next {
      assert released + [] == released;
      var k' := k + 1;
      forall no' | no' >= s.next ensures Seen(evs, k', no') <==> Seen(evs, k, no') { SeenMore(evs, k, no'); }
      IdleKept(s, released, evs, k, stream, lo, hi);
    } else {
      K.PutNotEmpty(s.held, Entry(no, packet, 0.0));
      QueuedKept(s, released, evs, k, now, stream, lo, hi);
      SettleKept(K.Queued(s, Entry(no, packet, 0.0), now), released, evs, k + 1, now, stream, lo, hi);
    }
  }

  lemma TimerKept(s: K.State, released: seq<Entry>, evs: seq<Event>, k: nat, now: int, stream: int -> Bytes, lo: int,
                  hi: int)
    requires k < |evs| && evs[k] == Timer(now as real)
    requires Gentle(evs, s.timeout, s.capacity, stream, lo, hi) && Kept(s, released, evs, k, stream, lo, hi)
    ensures K.Tick(s, now) == (s, []) && Kept(s, released, evs, k + 1, stream, lo, hi)
  {
    hide Seen, Gentle, Patient, Holding, Payloads, Section;
    var k' := k + 1;
    forall no ensures Seen(evs, k', no) <==> Seen(evs, k, no) { SeenMore(evs, k, no); }
    IdleKept(s, released, evs, k, stream, lo, hi);
    if s.held != [] { TimeLeft(s, evs, k + 1, stream, lo, hi); }
  }

  lemma {:induction false} RunKept(h: K.History, kevs: seq<K.Event>, k: nat, timeout: int, capacity: int,
                                   stream: int -> Bytes, lo: int, hi: int)
    requires k <= |kevs| && h.buf.timeout == timeout && h.buf.capacity == capacity
    requires Gentle(AsEvents(kevs), timeout, capacity, stream, lo, hi)
    requires Kept(h.buf, h.released, AsEvents(kevs), k, stream, lo, hi)
    ensures var h' := K.Run(h, kevs[k..]); Kept(h'.buf, h'.released, AsEvents(kevs), |kevs|, stream, lo, hi)
    decreases |kevs| - k
  {
    if k < |kevs| {
      hide Gentle, K.Push, K.Tick, Seen, Holding, Patient, Section, K.AtRest;
      var evs := AsEvents(kevs);
      assert evs[k] == AsEvent(kevs[k]);
      match kevs[k] {
        case Timer(now) =>
          TimerKept(h.buf, h.released, evs, k, now, stream, lo, hi);
          assert h.released + [] == h.released;
        case Arrive(no, packet, now) =>
          if h.buf.next < 0 {
            FirstKept(h.buf, evs, k, now, stream, lo, hi);
          } else {
            ArriveKept(h.buf, h.released, evs, k, now, stream, lo, hi);
          }
      }
      assert kevs[k..][0] == kevs[k] && kevs[k..][1..] == kevs[k + 1..];
      hide Kept;
      RunKept(K.Observe(h, kevs[k]), kevs, k + 1, timeout, capacity, stream, lo, hi);
    }
  }

  lemma RoomForOne(evs: seq<Event>, timeout: int, capacity: int, stream: int -> Bytes, lo: int, hi: int)
    requires Gentle(evs, timeout, capacity, stream, lo, hi)
    ensures Kept(K.New(timeout, capacity), [], evs, 0, stream, lo, hi)
  {
  }

  lemma SeenAtEnd(evs: seq<Event>, no: int, timeout: int, capacity: int, stream: int -> Bytes, lo: int, hi: int)
    requires Gentle(evs, timeout, capacity, stream, lo, hi)
    ensures lo < hi && (lo <= no < hi <==> Seen(evs, |evs|, no))
  {
  }

  lemma NoneLeft(held: seq<Entry>, next: int, evs: seq<Event>, timeout: int, capacity: int, stream: int -> Bytes,
                 lo: int, hi: int)
    requires Gentle(evs, timeout, capacity, stream, lo, hi) && Holding(held, next, evs, |evs|, stream)
    requires forall i :: 0 <= i < |held| ==> next <= held[i].no
    ensures next >= hi ==> held == []
  {
    hide Gentle, Seen, Holding;
    if held != [] {
      HeldSeen(held, next, 0, evs, |evs|, stream);
      SeenBelow(evs, |evs|, held[0].no, timeout, capacity, stream, lo, hi);
    }
  }

  lemma AllSeenAtEnd(s: K.State, released: seq<Entry>, evs: seq<Event>, timeout: int, capacity: int,
                     stream: int -> Bytes, lo: int, hi: int)
    requires Gentle(evs, timeout, capacity, stream, lo, hi) && Kept(s, released, evs, |evs|, stream, lo, hi)
    ensures Payloads(released) == Section(stream, lo, hi) && s.held == []
  {
    hide Gentle, Seen, Patient, Payloads, Section;
    SeenAtEnd(evs, lo, timeout, capacity, stream, lo, hi);
    SeenAtEnd(evs, s.next, timeout, capacity, stream, lo, hi);
    NoneLeft(s.held, s.next, evs, timeout, capacity, stream, lo, hi);
  }

  /**
   Main result: through a new Android buffer, a stream whose first packet arrives first comes out complete and in order,
   whatever the timer does, as long as no packet is late by a timeout or ahead by a capacity.
   */
  lemma {:induction false} ReorderingInvisible(timeout: int, capacity: int, kevs: seq<K.Event>, stream: int -> Bytes,
                                               lo: int, hi: int)
    requires Gentle(AsEvents(kevs), timeout, capacity, stream, lo, hi)
    ensures var h := K.Run(K.History(K.New(timeout, capacity), [], []), kevs);
            Payloads(h.released) == Section(stream, lo, hi) && h.buf.held == []
  {
    var h0, evs := K.History(K.New(timeout, capacity), [], []), AsEvents(kevs);
    RoomForOne(evs, timeout, capacity, stream, lo, hi);
    RunKept(h0, kevs, 0, timeout, capacity, stream, lo, hi);
    assert kevs[0..] == kevs;
    var h := K.Run(h0, kevs);
    hide K.Run, Gentle;
    AllSeenAtEnd(h.buf, h.released, evs, timeout, capacity, stream, lo, hi);
  }
}
