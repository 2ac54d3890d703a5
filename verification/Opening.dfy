/**
 The opening of a stream.  While priming nothing is handed out and the start rewinds to the earliest packet, so a
 session whose first packets arrive in any order still comes out complete from its very first packet on.
 */
module Opening {
  import opened Bytes
  import opened Resequencer
  import opened ReorderRuns
  import opened Restoration

  /** The different numbers among the arrivals. */
  function Numbers(copies: seq<Copy>): set<int> {
    set c | c in copies :: c.no
  }

  lemma NumbersMore(done: seq<Copy>, c: Copy)
    ensures Numbers(done + [c]) == Numbers(done) + {c.no}
    ensures Arrives(done, c.no) <==> c.no in Numbers(done)
  {
    assert forall d :: d in done + [c] <==> d in done || d == c;
    if Arrives(done, c.no) {
      var i :| 0 <= i < |done| && done[i].no == c.no;
      assert done[i] in done;
    }
  }

  lemma SubsetSize(s: set<int>, t: set<int>)
    requires s <= t
    ensures |s| <= |t|
  {
    assert s + (t - s) == t;
  }

  lemma NumbersFit(done: seq<Copy>, c: Copy, more: seq<Copy>)
    ensures |Numbers(done + [c])| <= |Numbers(done + ([c] + more))|
  {
    var part, all := done + [c], done + ([c] + more);
    assert forall d :: d in part ==> d in all;
    SubsetSize(Numbers(part), Numbers(all));
  }

  /** The least sequence number that arrived. */
  predicate Earliest(no: int, copies: seq<Copy>) {
    Arrives(copies, no) && forall i :: 0 <= i < |copies| ==> no <= copies[i].no
  }

  /** Mid-opening: exactly the packets of `done` are held, each once, and the position is the least of them. */
  ghost predicate Gathered(b: Buffer, done: seq<Copy>, stream: int -> Bytes) {
    && Valid(b) && b.started && b.priming && |b.held| <= |Numbers(done)|
    && (forall i :: 0 <= i < |b.held| ==> b.held[i].payload == stream(b.held[i].no))
    && (forall no :: Holds(b.held, no) <==> Arrives(done, no))
    && Earliest(b.next, done)
    && b.stats.delivered == b.stats.gapSkips == b.stats.lateDrops == b.stats.overflowFlushes == 0
  }

  lemma ArrivesMore(done: seq<Copy>, c: Copy, no: int)
    ensures Arrives(done + [c], no) <==> Arrives(done, no) || c.no == no
  {
    var all := done + [c];
    assert all[|done|] == c;
    assert forall i :: 0 <= i < |done| ==> all[i] == done[i];
  }

  lemma EarliestMore(done: seq<Copy>, c: Copy, no: int)
    requires Earliest(no, done)
    ensures Earliest(if c.no < no then c.no else no, done + [c])
  {
    ArrivesMore(done, c, no);
    ArrivesMore(done, c, c.no);
    assert forall i :: 0 <= i < |done| ==> (done + [c])[i] == done[i];
  }

  lemma EarliestBelow(least: int, done: seq<Copy>, no: int)
    requires Earliest(least, done)
    ensures Arrives(done, no) ==> least <= no
  {
  }

  /** A packet that arrives before the priming deadline is kept unless it is a second copy; nothing comes out. */
  lemma GatherOne(b: Buffer, done: seq<Copy>, c: Copy, stream: int -> Bytes)
    requires Gathered(b, done, stream) && c.now < b.primeDeadline && |Numbers(done + [c])| <= b.capacity
    ensures var (b', out) := Push(b, c.no, stream(c.no), c.now);
            && out == [] && Gathered(b', done + [c], stream)
            && b'.primeDeadline == b.primeDeadline && b'.capacity == b.capacity && b'.timeout == b.timeout
  {
    hide Insert, Holds, Ascending, Arrives, Earliest, Numbers;
    NumbersMore(done, c);
    EarliestMore(done, c, b.next);
    forall no ensures Arrives(done + [c], no) <==> Arrives(done, no) || c.no == no { ArrivesMore(done, c, no); }
    PrimeValid(b, c.no, c.now);
    var b1 := Prime(b, c.no, c.now);
    EarliestBelow(b.next, done, c.no);
    if Holds(b.held, c.no) {
      assert Judge(b1, c.no) == Duplicate;
    } else {
      var e := Entry(c.no, stream(c.no), c.now + b1.timeout);
      assert Judge(b1, c.no) == Accepted;
      AcceptValid(b1, e);
      InsertMembers(b1.held, e);
      forall no ensures Holds(Insert(b1.held, e), no) <==> Holds(b1.held, no) || no == c.no {
        InsertHolds(b1.held, e, no);
      }
    }
  }

  lemma {:induction false} GatherAll(b: Buffer, done: seq<Copy>, more: seq<Copy>, stream: int -> Bytes)
    requires Gathered(b, done, stream) && |Numbers(done + more)| <= b.capacity
    requires forall i :: 0 <= i < |more| ==> more[i].now < b.primeDeadline
    ensures var (b', out) := PushAll(b, more, stream);
            out == [] && Gathered(b', done + more, stream)
            && b'.primeDeadline == b.primeDeadline && b'.capacity == b.capacity && b'.timeout == b.timeout
    decreases |more|
  {
    hide Gathered, Push, Numbers;
    if more == [] {
      assert done + more == done;
    } else {
      var c := more[0];
      assert more == [c] + more[1..];
      NumbersFit(done, c, more[1..]);
      GatherOne(b, done, c, stream);
      var (b1, out) := Push(b, c.no, stream(c.no), c.now);
      assert done + [c] + more[1..] == done + more;
      GatherAll(b1, done + [c], more[1..], stream);
    }
  }

  /** Arrivals within one timeout of the first, in any order and with any repeats, that the buffer has room for. */
  predicate Opens(opening: seq<Copy>, timeout: real, capacity: nat) {
    && opening != [] && |Numbers(opening)| <= capacity
    && forall i :: 0 <= i < |opening| ==> opening[i].now < opening[0].now + timeout
  }

  lemma FirstPacket(b: Buffer, c: Copy, stream: int -> Bytes)
    requires Valid(b) && !b.started && b.timeout > 0.0 && b.stats == NO_STATS
    ensures var (b', out) := Push(b, c.no, stream(c.no), c.now);
            && out == [] && Gathered(b', [c], stream) && b'.primeDeadline == c.now + b.timeout
            && b'.capacity == b.capacity && b'.timeout == b.timeout
  {
    var e := Entry(c.no, stream(c.no), c.now + b.timeout);
    assert Insert([], e) == [e];
    assert [c][0] == c && [e][0] == e;
    assert Numbers([c]) == {c.no};
  }

  /**
   Priming finds the start: over any opening the buffer hands out nothing, counts nothing as late, holds exactly
   what arrived, and ends up positioned at the earliest packet, wherever in the opening that one came.
   */
  lemma {:induction false} PrimingFindsStart(timeoutMs: real, capacity: int, opening: seq<Copy>, stream: int -> Bytes)
    requires Opens(opening, NewBuffer(timeoutMs, capacity).timeout, NewBuffer(timeoutMs, capacity).capacity)
    ensures var (b, out) := PushAll(NewBuffer(timeoutMs, capacity), opening, stream);
            && out == [] && Gathered(b, opening, stream)
            && b.primeDeadline == opening[0].now + NewBuffer(timeoutMs, capacity).timeout
            && |Numbers(opening)| <= b.capacity
  {
    var b0, c := NewBuffer(timeoutMs, capacity), opening[0];
    FirstPacket(b0, c, stream);
    var (b1, out) := Push(b0, c.no, stream(c.no), c.now);
    hide Push, Gathered, Numbers;
    assert [c] + opening[1..] == opening;
    GatherAll(b1, [c], opening[1..], stream);
  }

  lemma OpeningCovered(b: Buffer, opening: seq<Copy>, rest: seq<Copy>, stream: int -> Bytes, hi: int)
    requires Gathered(b, opening, stream)
    requires forall i :: 0 <= i < |opening| ==> opening[i].no < hi
    requires forall i :: 0 <= i < |rest| ==> rest[i].no < hi
    requires forall no :: b.next <= no < hi ==> Arrives(opening, no) || Arrives(rest, no)
    ensures Valid(b.(priming := false)) && Covered(b.(priming := false), rest, stream, hi)
    ensures b.started && b.stats.gapSkips == 0 && b.stats.lateDrops == 0 && b.stats.overflowFlushes == 0 && b.priming
  {
    forall i | 0 <= i < |b.held| ensures b.held[i].no < hi {
      assert Holds(b.held, b.held[i].no);
      assert Arrives(opening, b.held[i].no);
    }
  }

  /** Once primed in time, an opening leaves the state that lossless restoration continues from. */
  lemma OpeningPending(b: Buffer, opening: seq<Copy>, rest: seq<Copy>, stream: int -> Bytes, hi: int, now: real)
    requires Gathered(b, opening, stream) && |b.held| <= b.capacity
    requires now >= b.primeDeadline && InTime(b.(priming := false), now)
    requires forall i :: 0 <= i < |opening| ==> opening[i].no < hi
    requires forall i :: 0 <= i < |rest| ==> rest[i].no < hi
    requires forall no :: b.next <= no < hi ==> Arrives(opening, no) || Arrives(rest, no)
    ensures var (b', out) := Tick(b, now);
            && Pending(b', rest, stream, hi) && |b'.held| <= b'.capacity && b.next <= b'.next
            && Payloads(out) == Section(stream, b.next, b'.next)
            && b'.stats.gapSkips == 0 && b'.stats.lateDrops == 0 && b'.stats.overflowFlushes == 0
  {
    var q := b.(priming := false);
    OpeningCovered(b, opening, rest, stream, hi);
    hide Gathered, Covered, Pending, DrainLoop, Section, Payloads, InTime;
    DrainedPending(q, rest, stream, hi, now);
    DrainInTime(q, now);
    DrainLoopReleases(q, now);
  }

  lemma OneEarliest(copies: seq<Copy>, a: int, b: int)
    requires Earliest(a, copies) && Earliest(b, copies)
    ensures a == b
  {
  }

  /**
   Lossless from the very first packet.  A new buffer gets an opening in any order, a timer tick once priming is
   over, and then the rest of the stream smoothly, in any order and with any repeats.  It hands out every packet
   from the earliest one on, in order, without skipping a number or dropping a packet as late while opening.
   */
  lemma {:induction false} LosslessFromStart(timeoutMs: real, capacity: int, opening: seq<Copy>, rest: seq<Copy>,
                                             stream: int -> Bytes, now: real, start: int, hi: int)
    requires Opens(opening, NewBuffer(timeoutMs, capacity).timeout, NewBuffer(timeoutMs, capacity).capacity)
    requires now >= opening[0].now + NewBuffer(timeoutMs, capacity).timeout
    requires Earliest(start, opening)
    requires forall i :: 0 <= i < |opening| ==> opening[i].no < hi
    requires forall i :: 0 <= i < |rest| ==> rest[i].no < hi
    requires forall no :: start <= no < hi ==> Arrives(opening, no) || Arrives(rest, no)
    requires var b1 := PushAll(NewBuffer(timeoutMs, capacity), opening, stream).0;
             InTime(b1.(priming := false), now) && Smooth(Tick(b1, now).0, rest, stream)
    ensures var (b1, out1) := PushAll(NewBuffer(timeoutMs, capacity), opening, stream);
            var (b2, out2) := Tick(b1, now);
            var (b3, out3) := PushAll(b2, rest, stream);
            && out1 == [] && Payloads(out2 + out3) == Section(stream, start, hi)
            && b3.held == [] && b3.next == hi
            && b3.stats.gapSkips == 0 && b3.stats.overflowFlushes == 0 && b2.stats.lateDrops == 0
  {
    PrimingFindsStart(timeoutMs, capacity, opening, stream);
    var b1 := PushAll(NewBuffer(timeoutMs, capacity), opening, stream).0;
    OneEarliest(opening, start, b1.next);
    hide PushAll, NewBuffer, Tick, InTime, Section, Payloads, Arrives, Earliest, Smooth;
    assert |b1.held| <= b1.capacity;
    OpeningPending(b1, opening, rest, stream, hi, now);
    var (b2, out2) := Tick(b1, now);
    SmoothRun(b2, rest, stream, hi);
    var (b3, out3) := PushAll(b2, rest, stream);
    hide Gathered, Pending;
    SectionsJoin(stream, start, b2.next, hi, out2, out3);
  }
}
