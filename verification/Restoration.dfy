/** When nothing is lost: a primed buffer turns any arrival order of a run of packets back into that run. */
module Restoration {
  import opened Bytes
  import opened Resequencer
  import opened ReorderRuns

  /** How many entries at the front of the queue continue the stream without a gap. */
  function RunLength(held: seq<Entry>, next: int): (k: nat)
    ensures k <= |held|
  {
    if held != [] && held[0].no == next then 1 + RunLength(held[1..], next + 1) else 0
  }

  /** Behind the packets that continue the stream, the first one that must wait has not expired. */
  predicate InTime(q: Buffer, now: real) {
    var k := RunLength(q.held, q.next);
    k < |q.held| ==> now < q.held[k].deadline
  }

  /** One turn with the next packet of the stream at the head. */
  lemma {:induction false} InTurn(q: Buffer, now: real)
    requires Valid(q) && q.started && !q.priming && q.held != [] && q.held[0].no == q.next
    ensures var q1 := Release(q);
            && Valid(q1) && q1.started && !q1.priming
            && q1.held == q.held[1..] && q1.next == q.next + 1 && q1.stats.gapSkips == q.stats.gapSkips
            && DrainLoop(q, now) == (DrainLoop(q1, now).0, [q.held[0]] + DrainLoop(q1, now).1)
  {
    hide DrainLoop, Remember;
    DrainTurn(q, now);
    assert CountGap(q, 0) == q;
  }

  /** Draining an in-time queue hands out exactly the gapless front and skips nothing. */
  lemma {:induction false} DrainInTime(q: Buffer, now: real)
    requires Valid(q) && q.started && !q.priming && InTime(q, now)
    ensures var (b, out) := DrainLoop(q, now);
            var k := RunLength(q.held, q.next);
            && out == q.held[..k] && b.held == q.held[k..] && b.next == q.next + k
            && b.stats.gapSkips == q.stats.gapSkips
    decreases |q.held|
  {
    hide Remember, Ascending;
    assert q.held != [] ==> q.held[0].no >= q.next;
    hide Valid;
    if q.held != [] && q.held[0].no == q.next {
      InTurn(q, now);
      var q1 := Release(q);
      hide Release;
      DrainInTime(q1, now);
    }
  }

  lemma {:induction false} GapsOnlyGrow(q: Buffer, now: real)
    requires Valid(q) && q.started && !q.priming
    ensures DrainLoop(q, now).0.stats.gapSkips >= q.stats.gapSkips
    decreases |q.held|
  {
    if q.held != [] && Due(q, now) {
      DrainTurn(q, now);
      var q1 := Release(CountGap(q, q.held[0].no - q.next));
      assert q1.stats.gapSkips >= q.stats.gapSkips;
      hide Release;
      GapsOnlyGrow(q1, now);
    }
  }

  /** One turn of a drain on a queue that is not in time: it counts a gap now, or leaves a queue that is no better. */
  lemma LateTurn(q: Buffer, now: real)
    requires Valid(q) && q.started && !q.priming && !InTime(q, now)
    ensures q.held != [] && q.held[0].no >= q.next
    ensures var q1 := Release(CountGap(q, q.held[0].no - q.next));
            && Valid(q1) && q1.started && !q1.priming && |q1.held| < |q.held|
            && DrainLoop(q, now).0 == DrainLoop(q1, now).0
            && (if q.held[0].no == q.next then q1.stats.gapSkips == q.stats.gapSkips && !InTime(q1, now)
                else q1.stats.gapSkips > q.stats.gapSkips)
  {
    hide DrainLoop, Remember, Ascending;
    DrainTurn(q, now);
  }

  /** A drain gives up on a missing packet exactly when the queue is not in time. */
  lemma {:induction false} SkipsExactlyWhenLate(q: Buffer, now: real)
    requires Valid(q) && q.started && !q.priming
    ensures DrainLoop(q, now).0.stats.gapSkips == q.stats.gapSkips <==> InTime(q, now)
    decreases |q.held|
  {
    hide DrainLoop, Release, Valid;
    if InTime(q, now) {
      DrainInTime(q, now);
    } else {
      LateTurn(q, now);
      var q1 := Release(CountGap(q, q.held[0].no - q.next));
      if q.held[0].no == q.next { SkipsExactlyWhenLate(q1, now); }
      GapsOnlyGrow(q1, now);
    }
  }

  // ----- a whole run

  datatype Copy = Copy(no: int, now: real)

  /** Feed copies of packets of one stream, in arrival order. */
  function PushAll(b: Buffer, copies: seq<Copy>, stream: int -> Bytes): (Buffer, seq<Entry>)
    decreases |copies|
  {
    if copies == [] then (b, [])
    else
      var (b1, out) := Push(b, copies[0].no, stream(copies[0].no), copies[0].now);
      var (b2, more) := PushAll(b1, copies[1..], stream);
      (b2, out + more)
  }

  /** At each arrival the queue is in time and what has to wait fits the buffer. */
  predicate Smooth(b: Buffer, copies: seq<Copy>, stream: int -> Bytes)
    decreases |copies|
  {
    copies == [] ||
    (var c := copies[0];
     var q := Queued(b, c.no, stream(c.no), c.now);
     && InTime(q, c.now) && |q.held| - RunLength(q.held, q.next) <= q.capacity
     && Smooth(Push(b, c.no, stream(c.no), c.now).0, copies[1..], stream))
  }

  /** The packets [lo, hi) of the stream, in order. */
  function Section(stream: int -> Bytes, lo: int, hi: int): seq<Bytes>
    requires lo <= hi
  {
    seq<Bytes>(hi - lo, i requires 0 <= i < hi - lo => stream(lo + i))
  }

  predicate Arrives(copies: seq<Copy>, no: int) {
    exists i :: 0 <= i < |copies| && copies[i].no == no
  }

  /** Mid-run: what is held belongs to the stream, ahead of the position; everything up to `hi` is held or coming. */
  ghost predicate Pending(b: Buffer, copies: seq<Copy>, stream: int -> Bytes, hi: int) {
    && Valid(b) && b.started && !b.priming && b.next <= hi
    && (forall i :: 0 <= i < |b.held| ==> b.next < b.held[i].no < hi && b.held[i].payload == stream(b.held[i].no))
    && (forall i :: 0 <= i < |copies| ==> copies[i].no < hi)
    && (forall no :: b.next <= no < hi ==> Holds(b.held, no) || Arrives(copies, no))
  }

  lemma {:induction false} RunIsSection(held: seq<Entry>, next: int, stream: int -> Bytes)
    requires forall i :: 0 <= i < |held| ==> held[i].payload == stream(held[i].no)
    ensures var k := RunLength(held, next);
            && (forall i :: 0 <= i < k ==> held[i].no == next + i)
            && (k < |held| ==> held[k].no != next + k)
            && Payloads(held[..k]) == Section(stream, next, next + k)
  {
    if held != [] && held[0].no == next {
      var tail := held[1..];
      RunIsSection(tail, next + 1, stream);
      var k := RunLength(held, next);
      assert forall i :: 0 < i < k ==> held[i] == tail[i - 1];
    }
  }

  /** The queue after an arrival: nothing is lost from what is held or still to come. */
  ghost predicate Covered(q: Buffer, copies: seq<Copy>, stream: int -> Bytes, hi: int) {
    && q.next <= hi
    && (forall i :: 0 <= i < |q.held| ==> q.next <= q.held[i].no < hi && q.held[i].payload == stream(q.held[i].no))
    && (forall i :: 0 <= i < |copies| ==> copies[i].no < hi)
    && (forall no :: q.next <= no < hi ==> Holds(q.held, no) || Arrives(copies, no))
  }

  /** Everything queued belongs to the stream, and a copy that is not accepted leaves the queue as it was. */
  lemma QueuedBelongs(b: Buffer, c: Copy, stream: int -> Bytes, hi: int)
    requires Valid(b) && b.started && !b.priming && b.next <= hi && c.no < hi
    requires forall i :: 0 <= i < |b.held| ==> b.next < b.held[i].no < hi && b.held[i].payload == stream(b.held[i].no)
    ensures var q := Queued(b, c.no, stream(c.no), c.now);
            && q.started && !q.priming && Valid(q)
            && (forall i :: 0 <= i < |q.held| ==>
                  q.next <= q.held[i].no < hi && q.held[i].payload == stream(q.held[i].no))
            && (Judge(b, c.no) != Accepted ==> q.held == b.held)
  {
    QueuedValid(b, c.no, stream(c.no), c.now);
    InsertMembers(b.held, Entry(c.no, stream(c.no), c.now + b.timeout));
    hide Insert, Holds, Ascending, Valid;
  }

  /** Everything held stays held, and a copy not yet passed by the stream is held afterwards. */
  lemma StillHeld(b: Buffer, no: int, payload: Bytes, now: real, watched: int)
    requires Valid(b) && b.started && !b.priming && watched >= b.next
    requires Holds(b.held, watched) || watched == no
    ensures Holds(Queued(b, no, payload, now).held, watched)
  {
    if Judge(b, no) == Accepted {
      var e := Entry(no, payload, now + b.timeout);
      InsertAscending(b.held, e);
      var k := Slot(b.held, no);
      var q := Queued(b, no, payload, now);
      if watched == no {
        assert q.held[k].no == watched;
      } else {
        var i :| 0 <= i < |b.held| && b.held[i].no == watched;
        assert q.held[if i < k then i else i + 1].no == watched;
      }
    }
  }

  lemma QueuedPending(b: Buffer, copies: seq<Copy>, stream: int -> Bytes, hi: int)
    requires copies != [] && Pending(b, copies, stream, hi)
    ensures var c := copies[0];
            var q := Queued(b, c.no, stream(c.no), c.now);
            Covered(q, copies[1..], stream, hi) && (Judge(b, c.no) != Accepted ==> Pending(q, copies[1..], stream, hi))
  {
    var c, rest := copies[0], copies[1..];
    var q := Queued(b, c.no, stream(c.no), c.now);
    assert copies == [c] + rest;
    assert q.next == b.next;
    QueuedBelongs(b, c, stream, hi);
    hide Queued, Insert;
    forall no | q.next <= no < hi ensures Holds(q.held, no) || Arrives(rest, no) {
      if Holds(b.held, no) || no == c.no {
        StillHeld(b, c.no, stream(c.no), c.now, no);
      } else {
        assert Arrives(copies, no);
        var i :| 0 <= i < |copies| && copies[i].no == no;
        assert rest[i - 1].no == no;
      }
    }
  }

  /** Behind the gapless front everything is strictly ahead of the new position. */
  lemma BehindRun(q: Buffer, stream: int -> Bytes, hi: int, i: nat)
    requires Valid(q) && RunLength(q.held, q.next) <= i < |q.held|
    requires forall j :: 0 <= j < |q.held| ==> q.held[j].payload == stream(q.held[j].no)
    ensures q.held[i].no > q.next + RunLength(q.held, q.next)
  {
    RunIsSection(q.held, q.next, stream);
    hide RunLength;
    Spread(q.held, RunLength(q.held, q.next));
  }

  lemma CoveredBehindRun(q: Buffer, copies: seq<Copy>, stream: int -> Bytes, hi: int, no: int)
    requires Valid(q) && Covered(q, copies, stream, hi) && q.next + RunLength(q.held, q.next) <= no < hi
    ensures Holds(q.held[RunLength(q.held, q.next)..], no) || Arrives(copies, no)
  {
    RunIsSection(q.held, q.next, stream);
    hide RunLength;
    var k := RunLength(q.held, q.next);
    if Holds(q.held, no) {
      var i :| 0 <= i < |q.held| && q.held[i].no == no;
      assert q.held[k..][i - k].no == no;
    }
  }

  lemma RunCovered(q: Buffer, copies: seq<Copy>, stream: int -> Bytes, hi: int, b: Buffer)
    requires Valid(q) && Covered(q, copies, stream, hi)
    requires var k := RunLength(q.held, q.next); b.held == q.held[k..] && b.next == q.next + k
    requires Valid(b) && b.started && !b.priming
    ensures Pending(b, copies, stream, hi)
    ensures Payloads(q.held[..RunLength(q.held, q.next)]) == Section(stream, q.next, b.next)
  {
    hide Ascending, Arrives, Section, Payloads;
    RunIsSection(q.held, q.next, stream);
    var k := RunLength(q.held, q.next);
    forall i | 0 <= i < |b.held| ensures b.next < b.held[i].no < hi && b.held[i].payload == stream(b.held[i].no) {
      assert b.held[i] == q.held[k + i];
      BehindRun(q, stream, hi, k + i);
    }
    hide RunLength, Valid, Holds;
    assert b.next <= hi by { if k > 0 { assert q.held[k - 1].no == q.next + k - 1; } }
    forall no | b.next <= no < hi ensures Holds(b.held, no) || Arrives(copies, no) {
      CoveredBehindRun(q, copies, stream, hi, no);
    }
  }

  lemma {:induction false} DrainedPending(q: Buffer, copies: seq<Copy>, stream: int -> Bytes, hi: int, now: real)
    requires Valid(q) && q.started && !q.priming && InTime(q, now) && Covered(q, copies, stream, hi)
    ensures var (b, out) := DrainLoop(q, now);
            && Pending(b, copies, stream, hi) && q.next <= b.next
            && Payloads(out) == Section(stream, q.next, b.next)
  {
    DrainInTime(q, now);
    DrainLoopReleases(q, now);
    var b := DrainLoop(q, now).0;
    var k := RunLength(q.held, q.next);
    hide DrainLoop, InTime;
    RunCovered(q, copies, stream, hi, b);
  }

  /** One arrival of a smooth run. */
  lemma {:induction false} SmoothPush(b: Buffer, copies: seq<Copy>, stream: int -> Bytes, hi: int)
    requires copies != [] && Pending(b, copies, stream, hi) && Smooth(b, copies, stream) && |b.held| <= b.capacity
    ensures var c := copies[0];
            var (b', out) := Push(b, c.no, stream(c.no), c.now);
            && Pending(b', copies[1..], stream, hi) && |b'.held| <= b'.capacity && b.next <= b'.next
            && Payloads(out) == Section(stream, b.next, b'.next)
            && b'.stats.gapSkips == b.stats.gapSkips && b'.stats.overflowFlushes == b.stats.overflowFlushes
  {
    var c := copies[0];
    var q := Queued(b, c.no, stream(c.no), c.now);
    QueuedValid(b, c.no, stream(c.no), c.now);
    QueuedCounts(b, c.no, stream(c.no), c.now);
    QueuedPending(b, copies, stream, hi);
    hide Queued;
    assert |DrainLoop(q, c.now).0.held| <= b.capacity && DrainLoop(q, c.now).0.capacity == b.capacity by {
      DrainInTime(q, c.now);
      DrainLoopReleases(q, c.now);
    }
    if Judge(b, c.no) == Accepted {
      hide Judge, Holds;
      assert Push(b, c.no, stream(c.no), c.now) == DrainLoop(q, c.now) by {
        DrainInTime(q, c.now);
        PushIsDrain(b, c.no, stream(c.no), c.now);
      }
      DrainInTime(q, c.now);
      DrainLoopReleases(q, c.now);
      DrainedPending(q, copies[1..], stream, hi, c.now);
    }
  }

  lemma SectionsJoin(stream: int -> Bytes, lo: int, mid: int, hi: int, out: seq<Entry>, more: seq<Entry>)
    requires lo <= mid <= hi && Payloads(out) == Section(stream, lo, mid) && Payloads(more) == Section(stream, mid, hi)
    ensures Payloads(out + more) == Section(stream, lo, hi)
  {
    assert Payloads(out + more) == Payloads(out) + Payloads(more);
  }

  /** With nothing more to come, the stream has been handed out to the end. */
  lemma NothingComing(b: Buffer, copies: seq<Copy>, stream: int -> Bytes, hi: int)
    requires Pending(b, copies, stream, hi) && copies == []
    ensures b.next == hi && b.held == []
  {
    assert b.held != [] ==> b.next < b.held[0].no < hi;
    assert Holds(b.held, b.next) || Arrives(copies, b.next) || b.next >= hi;
  }

  lemma {:induction false} SmoothRun(b: Buffer, copies: seq<Copy>, stream: int -> Bytes, hi: int)
    requires Pending(b, copies, stream, hi) && Smooth(b, copies, stream) && |b.held| <= b.capacity
    ensures var (b', out) := PushAll(b, copies, stream);
            && Payloads(out) == Section(stream, b.next, hi)
            && b'.held == [] && b'.next == hi
            && b'.stats.gapSkips == b.stats.gapSkips && b'.stats.overflowFlushes == b.stats.overflowFlushes
    decreases |copies|
  {
    if copies == [] {
      NothingComing(b, copies, stream, hi);
      assert Payloads([]) == Section(stream, hi, hi);
    } else {
      SmoothPush(b, copies, stream, hi);
      var c := copies[0];
      var (b1, out) := Push(b, c.no, stream(c.no), c.now);
      hide Push, Queued;
      SmoothRun(b1, copies[1..], stream, hi);
      SectionsJoin(stream, b.next, b1.next, hi, out, PushAll(b1, copies[1..], stream).1);
    }
  }

  /**
   Lossless restoration: an idle primed buffer positioned at `lo` that receives every packet of [lo, hi) at
   least once, in any order and with any repeats, smoothly, hands out exactly that section of the stream in
   order, holds nothing afterwards, and has given up on nothing.
   */
  lemma {:induction false} LosslessRestoration(b: Buffer, copies: seq<Copy>, stream: int -> Bytes, hi: int)
    requires Valid(b) && b.started && !b.priming && b.held == [] && b.next <= hi
    requires forall i :: 0 <= i < |copies| ==> copies[i].no < hi
    requires forall no :: b.next <= no < hi ==> Arrives(copies, no)
    requires Smooth(b, copies, stream)
    ensures var (b', out) := PushAll(b, copies, stream);
            && Payloads(out) == Section(stream, b.next, hi)
            && b'.held == [] && b'.next == hi
            && b'.stats.gapSkips == b.stats.gapSkips && b'.stats.overflowFlushes == b.stats.overflowFlushes
  {
    SmoothRun(b, copies, stream, hi);
  }

  // ----- a condition to check beforehand

  /** All copies arrive within one timeout from t0 on, and all packets still to come fit the buffer. */
  predicate Prompt(b: Buffer, copies: seq<Copy>, t0: real, hi: int) {
    && hi - b.next <= b.capacity
    && forall i :: 0 <= i < |copies| ==> t0 <= copies[i].now < t0 + b.timeout && copies[i].no < hi
  }

  /** What is held stays below hi and expires no earlier than a timeout after t0. */
  ghost predicate Unexpired(held: seq<Entry>, hi: int, limit: real) {
    forall i :: 0 <= i < |held| ==> held[i].no < hi && held[i].deadline >= limit
  }

  lemma QueuedUnexpired(b: Buffer, c: Copy, payload: Bytes, t0: real, hi: int)
    requires Valid(b) && b.started && !b.priming && Unexpired(b.held, hi, t0 + b.timeout)
    requires t0 <= c.now && c.no < hi
    ensures Unexpired(Queued(b, c.no, payload, c.now).held, hi, t0 + b.timeout)
  {
    InsertMembers(b.held, Entry(c.no, payload, c.now + b.timeout));
    hide Insert, Holds, Ascending, Valid;
  }

  lemma FewHeld(b: Buffer, hi: int, limit: real)
    requires Valid(b) && Unexpired(b.held, hi, limit) && b.next <= hi
    ensures |b.held| <= hi - b.next
  {
    if b.held != [] { Spread(b.held, |b.held| - 1); }
  }

  lemma ReleasedUnexpired(q: Buffer, b: Buffer, out: seq<Entry>, hi: int, limit: real)
    requires Releases(q, b, out) && Unexpired(q.held, hi, limit) && q.next <= hi && Valid(q)
    ensures Unexpired(b.held, hi, limit) && q.next <= b.next <= hi
    ensures b.started == q.started && b.capacity == q.capacity && b.timeout == q.timeout
    ensures !q.priming ==> !b.priming
  {
    assert forall i :: 0 <= i < |b.held| ==> b.held[i] == q.held[|out| + i];
    if out != [] { assert q.held[|out| - 1] == out[|out| - 1]; }
  }

  /** One prompt arrival: the queue is in time, it fits, and what the push leaves is as prompt as before. */
  lemma PromptPush(b: Buffer, c: Copy, payload: Bytes, t0: real, hi: int)
    requires Valid(b) && b.started && !b.priming && |b.held| <= b.capacity && b.next <= hi && hi - b.next <= b.capacity
    requires Unexpired(b.held, hi, t0 + b.timeout) && t0 <= c.now < t0 + b.timeout && c.no < hi
    ensures var q, b1 := Queued(b, c.no, payload, c.now), Push(b, c.no, payload, c.now).0;
            && InTime(q, c.now) && |q.held| <= q.capacity
            && Valid(b1) && b1.started && !b1.priming && |b1.held| <= b1.capacity && b1.next <= hi
            && b1.capacity == b.capacity && b1.timeout == b.timeout && b.next <= b1.next
            && Unexpired(b1.held, hi, t0 + b.timeout)
  {
    QueuedUnexpired(b, c, payload, t0, hi);
    QueuedValid(b, c.no, payload, c.now);
    QueuedCounts(b, c.no, payload, c.now);
    PushReleases(b, c.no, payload, c.now);
    hide Push, Queued, Prime, Holds, RunLength;
    var q := Queued(b, c.no, payload, c.now);
    assert Prime(b, c.no, c.now) == b by { PrimeValid(b, c.no, c.now); }
    FewHeld(q, hi, t0 + b.timeout);
    var (b1, out) := Push(b, c.no, payload, c.now);
    hide Valid, Judge;
    ReleasedUnexpired(q, b1, out, hi, t0 + b.timeout);
  }

  lemma {:induction false} PromptIsSmooth(b: Buffer, copies: seq<Copy>, stream: int -> Bytes, t0: real, hi: int)
    requires Valid(b) && b.started && !b.priming && |b.held| <= b.capacity && b.next <= hi
    requires Unexpired(b.held, hi, t0 + b.timeout) && Prompt(b, copies, t0, hi)
    ensures Smooth(b, copies, stream)
    decreases |copies|
  {
    if copies != [] {
      var c := copies[0];
      PromptPush(b, c, stream(c.no), t0, hi);
      hide Push, Queued, InTime, Valid, Unexpired, RunLength;
      PromptIsSmooth(Push(b, c.no, stream(c.no), c.now).0, copies[1..], stream, t0, hi);
    }
  }

  /**
   Lossless restoration with a condition on the arrivals alone: an idle primed buffer that receives every packet of
   the run within one timeout, in any order and with any repeats, and has room for the run, hands out exactly the run.
   */
  lemma {:induction false} PromptRestoration(b: Buffer, copies: seq<Copy>, stream: int -> Bytes, t0: real, hi: int)
    requires Valid(b) && b.started && !b.priming && b.held == [] && b.next <= hi && Prompt(b, copies, t0, hi)
    requires forall no :: b.next <= no < hi ==> Arrives(copies, no)
    ensures var (b', out) := PushAll(b, copies, stream);
            && Payloads(out) == Section(stream, b.next, hi)
            && b'.held == [] && b'.next == hi
            && b'.stats.gapSkips == b.stats.gapSkips && b'.stats.overflowFlushes == b.stats.overflowFlushes
  {
    PromptIsSmooth(b, copies, stream, t0, hi);
    hide Smooth, PushAll, Section, Payloads;
    LosslessRestoration(b, copies, stream, hi);
  }
}
