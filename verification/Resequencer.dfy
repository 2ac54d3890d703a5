/**
 The resequencing rules of turbobond/bond/reorder.py as functions on values: what `ReorderBuffer` must do.
 `held` is the pending map laid out in ascending sequence order, which is the order heapq hands it out in.
 */
module Resequencer {
  import opened Bytes

  datatype Entry = Entry(no: int, payload: Bytes, deadline: real)

  datatype Stats = Stats(delivered: nat, reordered: nat, duplicates: nat, lateDrops: nat, gapSkips: nat,
                         overflowFlushes: nat, maxHeld: nat)

  /** How delivered sequence numbers are remembered.  The source prunes; the others exist to compare against it. */
  datatype Memory = Pruned | Everything | Nothing

  datatype Buffer = Buffer(timeout: real, capacity: nat, memory: Memory, started: bool, priming: bool,
                           primeDeadline: real, next: int, held: seq<Entry>, seen: set<int>, stats: Stats)

  const NO_STATS := Stats(0, 0, 0, 0, 0, 0, 0)

  function NewBuffer(timeoutMs: real, capacity: int, memory: Memory := Pruned): Buffer {
    Buffer(if timeoutMs > 0.0 then timeoutMs / 1000.0 else 0.0, if capacity > 8 then capacity else 8, memory,
           false, false, 0.0, 0, [], {}, NO_STATS)
  }

  function Reset(b: Buffer): Buffer {
    b.(held := [], seen := {}, next := 0, started := false, priming := false, primeDeadline := 0.0)
  }

  function Payloads(es: seq<Entry>): seq<Bytes> {
    seq<Bytes>(|es|, i requires 0 <= i < |es| => es[i].payload)
  }

  // ----- releasing

  function Remember(b: Buffer, no: int): set<int> {
    match b.memory
    case Nothing => {}
    case Everything => b.seen + {no}
    case Pruned =>
      var seen := b.seen + {no};
      if |seen| > b.capacity * 4 then set s | s in seen && s >= no + 1 - b.capacity * 2 else seen
  }

  function Advance(b: Buffer, no: int): Buffer {
    b.(next := no + 1, seen := Remember(b, no), stats := b.stats.(delivered := b.stats.delivered + 1))
  }

  function Drop(b: Buffer): Buffer
    requires b.held != []
  {
    b.(held := b.held[1..])
  }

  /** Hand out the head of the queue and move past it. */
  function Release(b: Buffer): Buffer
    requires b.held != []
  {
    Advance(Drop(b), b.held[0].no)
  }

  function CountGap(b: Buffer, gap: nat): Buffer {
    b.(stats := b.stats.(gapSkips := b.stats.gapSkips + gap))
  }

  /** The loop of `_drain`, with its guard against a head below the stream position. */
  function DrainLoop(b: Buffer, now: real): (Buffer, seq<Entry>)
    decreases |b.held|
  {
    if b.held == [] then (b, [])
    else
      var head := b.held[0];
      if head.no < b.next then DrainLoop(Drop(b), now)
      else if head.no == b.next then
        var (b', out) := DrainLoop(Release(b), now);
        (b', [head] + out)
      else if now >= head.deadline then
        var (b', out) := DrainLoop(Release(CountGap(b, head.no - b.next)), now);
        (b', [head] + out)
      else (b, [])
  }

  function Drain(b: Buffer, now: real): (Buffer, seq<Entry>) {
    if b.priming && now < b.primeDeadline then (b, []) else DrainLoop(b.(priming := false), now)
  }

  /** The loop shared by `_force_flush` and `flush`: at most `target` heads leave, whatever the gaps. */
  function FlushLoop(b: Buffer, target: int): (Buffer, seq<Entry>)
    decreases |b.held|
  {
    if b.held == [] || target <= 0 then (b, [])
    else if b.held[0].no < b.next then FlushLoop(Drop(b), target - 1)
    else
      var (b', out) := FlushLoop(Release(b), target - 1);
      (b', [b.held[0]] + out)
  }

  function ForceFlush(b: Buffer): (Buffer, seq<Entry>) {
    FlushLoop(b.(priming := false, stats := b.stats.(overflowFlushes := b.stats.overflowFlushes + 1)),
              |b.held| - b.capacity / 2)
  }

  function Flush(b: Buffer): (Buffer, seq<Entry>) {
    FlushLoop(b.(priming := false), |b.held|)
  }

  function Tick(b: Buffer, now: real): (Buffer, seq<Entry>) {
    Drain(b, now)
  }

  // ----- accepting

  predicate Holds(held: seq<Entry>, no: int) {
    exists i :: 0 <= i < |held| && held[i].no == no
  }

  function Insert(held: seq<Entry>, e: Entry): seq<Entry> {
    if held == [] || e.no < held[0].no then [e] + held else [held[0]] + Insert(held[1..], e)
  }

  /** The first packet opens the priming phase; while it lasts an earlier packet rewinds the stream start. */
  function Prime(b: Buffer, no: int, now: real): Buffer {
    if !b.started then b.(started := true, next := no, priming := true, primeDeadline := now + b.timeout)
    else if b.priming && no < b.next then b.(next := no)
    else b
  }

  /** What the checks at the top of `push` decide, after priming. */
  datatype Verdict = Duplicate | Late | Accepted

  function Judge(b: Buffer, no: int): Verdict {
    if Holds(b.held, no) || no in b.seen then Duplicate
    else if no < b.next then Late
    else Accepted
  }

  function Accept(b: Buffer, e: Entry): Buffer {
    b.(held := Insert(b.held, e),
       stats := b.stats.(maxHeld := if b.stats.maxHeld > |b.held| + 1 then b.stats.maxHeld else |b.held| + 1,
                         reordered := b.stats.reordered + if e.no != b.next then 1 else 0))
  }

  function Push(b: Buffer, no: int, payload: Bytes, now: real): (Buffer, seq<Entry>) {
    var b1 := Prime(b, no, now);
    match Judge(b1, no)
    case Duplicate => (b1.(stats := b1.stats.(duplicates := b1.stats.duplicates + 1)), [])
    case Late => (b1.(stats := b1.stats.(lateDrops := b1.stats.lateDrops + 1)), [])
    case Accepted =>
      var (b2, out) := Drain(Accept(b1, Entry(no, payload, now + b1.timeout)), now);
      if |b2.held| <= b2.capacity then (b2, out)
      else
        var (b3, more) := ForceFlush(b2);
        (b3, out + more)
  }

  // ----- the invariant

  ghost predicate Ascending(es: seq<Entry>) {
    forall i, j :: 0 <= i < j < |es| ==> es[i].no < es[j].no
  }

  ghost predicate Valid(b: Buffer) {
    && b.timeout >= 0.0 && b.capacity >= 8
    && Ascending(b.held)
    && (forall i :: 0 <= i < |b.held| ==> b.held[i].no >= b.next)
    && (forall s :: s in b.seen ==> s < b.next)
    && (b.memory == Pruned ==> |b.seen| <= 4 * b.capacity)
    && (!b.started ==> b.held == [] && b.seen == {} && !b.priming)
    && (b.priming ==> b.seen == {})
  }

  function Position(b: Buffer, out: seq<Entry>): int {
    if out == [] then b.next else out[|out| - 1].no + 1
  }

  ghost predicate SameShape(b: Buffer, b': Buffer) {
    && b'.timeout == b.timeout && b'.capacity == b.capacity && b'.memory == b.memory && b'.started == b.started
    && b'.stats.duplicates == b.stats.duplicates && b'.stats.lateDrops == b.stats.lateDrops
    && b'.stats.reordered == b.stats.reordered && b'.stats.maxHeld == b.stats.maxHeld
  }

  function Distance(b: Buffer): int {
    b.next - b.stats.delivered - b.stats.gapSkips
  }

  /**
   The abstract resequencing step every release is an instance of: a prefix of what is held leaves in order,
   the position moves just past it, and nothing else about the queue changes.
   */
  ghost predicate Releases(b: Buffer, b': Buffer, out: seq<Entry>) {
    && SameShape(b, b')
    && b.held == out + b'.held
    && b'.next == Position(b, out)
    && b'.stats.delivered == b.stats.delivered + |out|
    && Distance(b') >= Distance(b)
    && (b'.priming ==> b' == b)
  }

  lemma {:induction false} Spread(held: seq<Entry>, i: nat)
    requires Ascending(held) && i < |held|
    ensures held[i].no >= held[0].no + i
  {
    if i > 0 { Spread(held, i - 1); }
  }

  lemma RangeSize(s: set<int>, lo: int, hi: int)
    requires lo <= hi && forall x :: x in s ==> lo <= x < hi
    ensures |s| <= hi - lo
    decreases hi - lo
  {
    if s != {} {
      if lo == hi {
        var x :| x in s;
        assert false;
      } else {
        RangeSize(s - {lo}, lo + 1, hi);
      }
    }
  }

  /** Pruning keeps the remembered set within four capacities: what survives fits in two. */
  lemma RememberBounded(b: Buffer, no: int)
    requires b.capacity >= 8 && forall s :: s in b.seen ==> s < no
    requires b.memory == Pruned
    ensures |Remember(b, no)| <= 4 * b.capacity
  {
    var seen := b.seen + {no};
    if |seen| > b.capacity * 4 {
      RangeSize(Remember(b, no), no + 1 - b.capacity * 2, no + 1);
    }
  }

  lemma ReleaseValid(b: Buffer)
    requires Valid(b) && !b.priming && b.started && b.held != []
    ensures Valid(Release(b)) && !Release(b).priming && Releases(b, Release(b), [b.held[0]])
    ensures Distance(Release(b)) == Distance(b) + (b.held[0].no - b.next)
  {
    if b.memory == Pruned { RememberBounded(b, b.held[0].no); }
    assert b.held == [b.held[0]] + b.held[1..];
  }

  lemma ReleasesTrans(b: Buffer, b1: Buffer, b2: Buffer, out: seq<Entry>, more: seq<Entry>)
    requires Releases(b, b1, out) && Releases(b1, b2, more)
    ensures Releases(b, b2, out + more)
  {
  }

  predicate Due(b: Buffer, now: real)
    requires b.held != []
  {
    b.held[0].no == b.next || (b.held[0].no > b.next && now >= b.held[0].deadline)
  }

  /** One turn of the `_drain` loop that lets the head go. */
  lemma DrainTurn(b: Buffer, now: real)
    requires Valid(b) && !b.priming && b.started && b.held != [] && Due(b, now)
    ensures var b1 := Release(CountGap(b, b.held[0].no - b.next));
            && Valid(b1) && !b1.priming && Releases(b, b1, [b.held[0]]) && Distance(b1) == Distance(b)
            && b1.stats.overflowFlushes == b.stats.overflowFlushes
            && DrainLoop(b, now) == (DrainLoop(b1, now).0, [b.held[0]] + DrainLoop(b1, now).1)
  {
    hide Remember, Ascending;
    var b0 := CountGap(b, b.held[0].no - b.next);
    ReleaseValid(b0);
    if b.held[0].no == b.next { assert b0 == b; }
  }

  /** Every `_drain` loop is an abstract release; it accounts for every number it moves past, and never stops early. */
  lemma {:induction false} DrainLoopReleases(b: Buffer, now: real)
    requires Valid(b) && !b.priming && b.started
    ensures var (b', out) := DrainLoop(b, now);
            && Valid(b') && !b'.priming && Releases(b, b', out)
            && Distance(b') == Distance(b) && b'.stats.overflowFlushes == b.stats.overflowFlushes
            && (b'.held == [] || (b'.held[0].no > b'.next && now < b'.held[0].deadline))
    decreases |b.held|
  {
    if b.held != [] && Due(b, now) {
      DrainTurn(b, now);
      var b1 := Release(CountGap(b, b.held[0].no - b.next));
      DrainLoopReleases(b1, now);
      var (b2, out) := DrainLoop(b1, now);
      ReleasesTrans(b, b1, b2, [b.held[0]], out);
    }
  }

  /** One turn of a flush: the head goes, whatever the gap in front of it. */
  lemma FlushTurn(b: Buffer, target: int)
    requires Valid(b) && !b.priming && b.started && b.held != [] && target > 0
    ensures var b1 := Release(b);
            && Valid(b1) && !b1.priming && b1.started && Releases(b, b1, [b.held[0]]) && |b1.held| == |b.held| - 1
            && b1.stats.overflowFlushes == b.stats.overflowFlushes
            && FlushLoop(b, target) == (FlushLoop(b1, target - 1).0, [b.held[0]] + FlushLoop(b1, target - 1).1)
  {
    ReleaseValid(b);
    hide Remember;
  }

  /** Flushing is an abstract release of exactly the requested number of heads. */
  lemma {:induction false} FlushLoopReleases(b: Buffer, target: int)
    requires Valid(b) && !b.priming && (b.started || b.held == [])
    ensures var (b', out) := FlushLoop(b, target);
            && Valid(b') && !b'.priming && Releases(b, b', out) && b'.stats.overflowFlushes == b.stats.overflowFlushes
            && |out| == (if target <= 0 then 0 else if target >= |b.held| then |b.held| else target)
    decreases |b.held|
  {
    hide Release, Valid, Ascending;
    if b.held != [] && target > 0 {
      var b1 := Release(b);
      FlushTurn(b, target);
      hide FlushLoop;
      FlushLoopReleases(b1, target - 1);
      var (b2, out) := FlushLoop(b1, target - 1);
      ReleasesTrans(b, b1, b2, [b.held[0]], out);
    }
  }

  /** Where Insert puts a new entry: after everything smaller. */
  function Slot(held: seq<Entry>, no: int): (k: nat)
    ensures k <= |held|
  {
    if held == [] || no < held[0].no then 0 else 1 + Slot(held[1..], no)
  }

  lemma {:induction false} InsertAtSlot(held: seq<Entry>, e: Entry)
    ensures var k := Slot(held, e.no); Insert(held, e) == held[..k] + [e] + held[k..]
  {
    if held != [] && e.no >= held[0].no {
      var tail := held[1..];
      var j := Slot(tail, e.no);
      InsertAtSlot(tail, e);
      assert held[..j + 1] == [held[0]] + tail[..j] && held[j + 1..] == tail[j..];
      assert [held[0]] + (tail[..j] + [e] + tail[j..]) == held[..j + 1] + [e] + held[j + 1..];
    }
  }

  lemma {:induction false} SlotSplits(held: seq<Entry>, no: int)
    requires Ascending(held) && !Holds(held, no)
    ensures var k := Slot(held, no); forall i :: 0 <= i < |held| ==> (held[i].no < no <==> i < k)
  {
    if held != [] && no >= held[0].no {
      var tail := held[1..];
      assert forall i :: 0 <= i < |tail| ==> tail[i] == held[i + 1];
      SlotSplits(tail, no);
      forall i | 0 <= i < |held| ensures held[i].no < no <==> i < Slot(held, no) {
        if i > 0 { assert tail[i - 1].no < no <==> i - 1 < Slot(tail, no); }
      }
    }
  }

  lemma {:induction false} InsertMembers(held: seq<Entry>, e: Entry)
    ensures forall i :: 0 <= i < |Insert(held, e)| ==> Insert(held, e)[i] == e || Insert(held, e)[i] in held
  {
    if held != [] && e.no >= held[0].no {
      InsertMembers(held[1..], e);
    }
  }

  lemma {:induction false} InsertItems(held: seq<Entry>, e: Entry)
    ensures multiset(Insert(held, e)) == multiset(held) + multiset{e} && |Insert(held, e)| == |held| + 1
  {
    if held != [] && e.no >= held[0].no {
      InsertItems(held[1..], e);
      assert held == [held[0]] + held[1..];
    }
  }

  lemma HoldsFirst(held: seq<Entry>, no: int)
    requires held != []
    ensures Holds(held, no) <==> held[0].no == no || Holds(held[1..], no)
  {
    var tail := held[1..];
    assert forall i :: 0 < i < |held| ==> held[i] == tail[i - 1];
  }

  lemma {:induction false} InsertHolds(held: seq<Entry>, e: Entry, no: int)
    ensures Holds(Insert(held, e), no) <==> Holds(held, no) || no == e.no
  {
    hide Holds;
    var q := Insert(held, e);
    HoldsFirst(q, no);
    if held != [] && e.no >= held[0].no {
      HoldsFirst(held, no);
      InsertHolds(held[1..], e, no);
      assert q[1..] == Insert(held[1..], e);
    } else {
      assert q[1..] == held;
    }
  }

  lemma {:induction false} InsertAscending(held: seq<Entry>, e: Entry)
    requires Ascending(held) && !Holds(held, e.no)
    ensures Ascending(Insert(held, e))
    ensures var k := Slot(held, e.no);
            && Insert(held, e) == held[..k] + [e] + held[k..]
            && forall i :: 0 <= i < |held| ==> (held[i].no < e.no <==> i < k)
  {
    InsertAtSlot(held, e);
    SlotSplits(held, e.no);
  }
}
