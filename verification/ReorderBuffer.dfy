/** The receive-side buffer of turbobond/bond/reorder.py, as the mutable object the source has. */
module Reorder {
  import opened Bytes
  import opened Resequencer

  type Slots = map<int, (Bytes, real)>

  /** What a heap and its payload map hold together, oldest first. */
  function Contents(heap: seq<int>, pending: Slots): seq<Entry>
    requires forall i :: 0 <= i < |heap| ==> heap[i] in pending
  {
    seq(|heap|, i requires 0 <= i < |heap| => Entry(heap[i], pending[heap[i]].0, pending[heap[i]].1))
  }

  predicate Sorted(heap: seq<int>) {
    forall i, j :: 0 <= i < j < |heap| ==> heap[i] < heap[j]
  }

  /** The heap list and the pending map name the same packets, each once. */
  predicate Paired(heap: seq<int>, pending: Slots) {
    && Sorted(heap)
    && (forall i :: 0 <= i < |heap| ==> heap[i] in pending)
    && (forall k :: k in pending ==> k in heap)
  }

  /** heapq.heappush on a list kept fully sorted, one of the arrangements a heap may have. */
  method HeapPush(heap: seq<int>, no: int) returns (heap': seq<int>, ghost k: nat)
    requires Sorted(heap) && no !in heap
    ensures k <= |heap| && heap' == heap[..k] + [no] + heap[k..] && Sorted(heap')
    ensures forall i :: 0 <= i < |heap| ==> (heap[i] < no <==> i < k)
  {
    var at := 0;
    while at < |heap| && heap[at] < no
      invariant 0 <= at <= |heap|
      invariant forall i :: 0 <= i < at ==> heap[i] < no
    {
      at := at + 1;
    }
    k := at;
    heap' := heap[..at] + [no] + heap[at..];
  }

  lemma {:induction false} PairedSize(heap: seq<int>, pending: Slots)
    requires Paired(heap, pending)
    ensures |pending| == |heap|
    decreases |heap|
  {
    if heap == [] {
      assert forall k :: k !in pending;
      assert pending.Keys == {};
    } else {
      var rest := pending - {heap[0]};
      forall k | k in rest ensures k in heap[1..] { assert k in heap; }
      PairedSize(heap[1..], rest);
      assert pending.Keys == rest.Keys + {heap[0]};
      assert |pending.Keys| == |rest.Keys| + 1;
    }
  }

  lemma PopContents(heap: seq<int>, pending: Slots)
    requires Paired(heap, pending) && heap != []
    ensures Paired(heap[1..], pending - {heap[0]})
    ensures Contents(heap[1..], pending - {heap[0]}) == Contents(heap, pending)[1..]
    ensures |pending| == |heap|
  {
    PairedSize(heap, pending);
    forall k | k in pending - {heap[0]} ensures k in heap[1..] {
      assert k in heap;
    }
  }

  lemma HeadIs(heap: seq<int>, pending: Slots)
    requires Paired(heap, pending) && heap != []
    ensures heap[0] in pending
    ensures var held := Contents(heap, pending);
            held != [] && held[0] == Entry(heap[0], pending[heap[0]].0, pending[heap[0]].1)
  {
  }

  lemma PushPaired(heap: seq<int>, pending: Slots, no: int, slot: (Bytes, real), k: nat)
    requires Paired(heap, pending) && k <= |heap| && Sorted(heap[..k] + [no] + heap[k..])
    ensures Paired(heap[..k] + [no] + heap[k..], pending[no := slot])
  {
    var heap', pending' := heap[..k] + [no] + heap[k..], pending[no := slot];
    forall key | key in pending' ensures key in heap' {
      if key != no {
        assert key in heap;
        var i :| 0 <= i < |heap| && heap[i] == key;
        assert heap'[if i < k then i else i + 1] == key;
      } else {
        assert heap'[k] == key;
      }
    }
    forall i | 0 <= i < |heap'| ensures heap'[i] in pending' {
      assert heap'[i] == if i < k then heap[i] else if i == k then no else heap[i - 1];
    }
  }

  lemma PushLayout(heap: seq<int>, pending: Slots, e: Entry, k: nat)
    requires k <= |heap| && e.no !in pending && forall i :: 0 <= i < |heap| ==> heap[i] in pending
    requires forall i :: 0 <= i < |heap| + 1 ==>
               (heap[..k] + [e.no] + heap[k..])[i] in pending[e.no := (e.payload, e.deadline)]
    ensures var held := Contents(heap, pending);
            Contents(heap[..k] + [e.no] + heap[k..], pending[e.no := (e.payload, e.deadline)])
            == held[..k] + [e] + held[k..]
  {
  }

  lemma {:induction false} SlotIs(held: seq<Entry>, no: int, k: nat)
    requires k <= |held| && forall i :: 0 <= i < |held| ==> (held[i].no < no <==> i < k)
    requires forall i :: 0 <= i < |held| ==> held[i].no != no
    ensures Slot(held, no) == k
  {
    if held != [] && k > 0 {
      var tail := held[1..];
      assert forall i :: 0 <= i < |tail| ==> tail[i] == held[i + 1];
      SlotIs(tail, no, k - 1);
    }
  }

  lemma {:induction false} PushContents(heap: seq<int>, pending: Slots, e: Entry, k: nat)
    requires Paired(heap, pending) && e.no !in pending && k <= |heap|
    requires forall i :: 0 <= i < |heap| ==> (heap[i] < e.no <==> i < k)
    requires Paired(heap[..k] + [e.no] + heap[k..], pending[e.no := (e.payload, e.deadline)])
    ensures Contents(heap[..k] + [e.no] + heap[k..], pending[e.no := (e.payload, e.deadline)])
         == Insert(Contents(heap, pending), e)
  {
    hide Insert, Slot;
    var held := Contents(heap, pending);
    SlotIs(held, e.no, k);
    InsertAtSlot(held, e);
    hide Contents, Paired;
    PushLayout(heap, pending, e, k);
  }

  lemma PayloadsConcat(es: seq<Entry>, fs: seq<Entry>)
    ensures Payloads(es + fs) == Payloads(es) + Payloads(fs)
    ensures Payloads([]) == []
  {
  }

  /** A loop that has handed out `out` and will still do `rest` does `goal` in all. */
  ghost predicate Extends(goal: (Buffer, seq<Entry>), rest: (Buffer, seq<Entry>), out: seq<Bytes>) {
    goal.0 == rest.0 && Payloads(goal.1) == out + Payloads(rest.1)
  }

  lemma ExtendsTrans(goal: (Buffer, seq<Entry>), mid: (Buffer, seq<Entry>), rest: (Buffer, seq<Entry>),
                     out: seq<Bytes>, more: seq<Bytes>)
    requires Extends(goal, mid, out) && Extends(mid, rest, more)
    ensures Extends(goal, rest, out + more)
  {
  }

  lemma ExtendsDone(goal: (Buffer, seq<Entry>), b: Buffer, out: seq<Bytes>)
    requires Extends(goal, (b, []), out)
    ensures goal.0 == b && Payloads(goal.1) == out
  {
  }

  lemma ExtendsSelf(goal: (Buffer, seq<Entry>))
    ensures Extends(goal, goal, [])
  {
  }

  lemma PushUnfolds(b: Buffer, no: int, payload: Bytes, now: real)
    ensures var b1 := Prime(b, no, now);
            var (b2, out) := Resequencer.Drain(Accept(b1, Entry(no, payload, now + b1.timeout)), now);
            Resequencer.Push(b, no, payload, now)
            == if Holds(b1.held, no) || no in b1.seen then
                 (b1.(stats := b1.stats.(duplicates := b1.stats.duplicates + 1)), [])
               else if no < b1.next then (b1.(stats := b1.stats.(lateDrops := b1.stats.lateDrops + 1)), [])
               else if |b2.held| <= b2.capacity then (b2, out)
               else var (b3, more) := Resequencer.ForceFlush(b2); (b3, out + more)
  {
    hide Prime, Accept, Resequencer.Drain, Resequencer.ForceFlush, Holds;
  }

  lemma DrainLoopUnfolds(b: Buffer, now: real)
    ensures b.held == [] ==> DrainLoop(b, now) == (b, [])
    ensures b.held != [] && b.held[0].no < b.next ==> DrainLoop(b, now) == DrainLoop(Drop(b), now)
    ensures b.held != [] && b.held[0].no == b.next ==>
              Extends(DrainLoop(b, now), DrainLoop(Release(b), now), [b.held[0].payload])
    ensures b.held != [] && b.held[0].no > b.next && now >= b.held[0].deadline ==>
              Extends(DrainLoop(b, now), DrainLoop(Release(CountGap(b, b.held[0].no - b.next)), now),
                      [b.held[0].payload])
    ensures b.held != [] && b.held[0].no > b.next && now < b.held[0].deadline ==> DrainLoop(b, now) == (b, [])
  {
    hide Release, CountGap;
  }

  lemma FlushLoopUnfolds(b: Buffer, target: int)
    ensures b.held == [] || target <= 0 ==> FlushLoop(b, target) == (b, [])
    ensures b.held != [] && target > 0 && b.held[0].no < b.next ==>
              FlushLoop(b, target) == FlushLoop(Drop(b), target - 1)
    ensures b.held != [] && target > 0 && b.held[0].no >= b.next ==>
              Extends(FlushLoop(b, target), FlushLoop(Advance(Drop(b), b.held[0].no), target - 1), [b.held[0].payload])
  {
    hide Advance, Drop;
  }

  lemma HoldsIffPending(heap: seq<int>, pending: Slots, no: int)
    requires Paired(heap, pending)
    ensures no in pending <==> Holds(Contents(heap, pending), no)
  {
    if no in pending {
      var i :| 0 <= i < |heap| && heap[i] == no;
      assert Contents(heap, pending)[i].no == no;
    }
  }

  class ReorderBuffer {
    const timeout: real
    const capacity: nat
    var stats: Stats
    var heap: seq<int>
    var pending: Slots
    var seen: set<int>
    var nextSeq: int
    var started: bool
    var priming: bool
    var primeDeadline: real

    ghost predicate Valid()
      reads `heap, `pending
    {
      Paired(heap, pending)
    }

    ghost function View(): Buffer
      requires Valid()
      reads this
    {
      Buffer(timeout, capacity, Pruned, started, priming, primeDeadline, nextSeq, Contents(heap, pending), seen, stats)
    }

    constructor (timeoutMs: real := 90.0, capacity: int := 2048)
      ensures Valid() && View() == NewBuffer(timeoutMs, capacity)
    {
      this.timeout := if timeoutMs > 0.0 then timeoutMs / 1000.0 else 0.0;
      this.capacity := if capacity > 8 then capacity else 8;
      stats := NO_STATS;
      heap, pending, seen := [], map[], {};
      nextSeq, started, priming, primeDeadline := 0, false, false, 0.0;
    }

    method Push(no: int, payload: Bytes, now: real) returns (released: seq<Bytes>)
      requires Valid()
      modifies this
      ensures Valid()
      ensures var (b, out) := Resequencer.Push(old(View()), no, payload, now);
              View() == b && released == Payloads(out)
    {
      hide Resequencer.Push, Prime, Holds, Resequencer.Drain, Resequencer.ForceFlush, Contents, Paired,
           Payloads, Accept;
      PushUnfolds(View(), no, payload, now);
      StartOrRewind(no, now);
      HoldsIffPending(heap, pending, no);
      PayloadsConcat([], []);
      if no in pending || no in seen {
        stats := stats.(duplicates := stats.duplicates + 1);
        return [];
      }
      if no < nextSeq {
        stats := stats.(lateDrops := stats.lateDrops + 1);
        return [];
      }
      QueueUp(no, payload, now + timeout);
      ghost var q := View();
      released := this.Drain(now);
      SizeIs();
      if |pending| > capacity {
        var more := this.ForceFlush();
        PayloadsConcat(Resequencer.Drain(q, now).1, Resequencer.ForceFlush(Resequencer.Drain(q, now).0).1);
        released := released + more;
      }
    }

    /** The opening lines of `push`: start priming, or rewind while it lasts. */
    method StartOrRewind(no: int, now: real)
      requires Valid()
      modifies `started, `nextSeq, `priming, `primeDeadline
      ensures Valid() && View() == Prime(old(View()), no, now)
    {
      if !started {
        started := true;
        nextSeq := no;
        priming := true;
        primeDeadline := now + timeout;
      } else if priming && no < nextSeq {
        nextSeq := no;
      }
    }

    lemma SizeIs()
      requires Valid()
      ensures |pending| == |View().held|
    {
      PairedSize(heap, pending);
    }

    /** The accepting half of `push`: payload map, heap and statistics. */
    method QueueUp(no: int, payload: Bytes, deadline: real)
      requires Valid() && no !in pending
      modifies this
      ensures Valid() && View() == Accept(old(View()), Entry(no, payload, deadline))
    {
      ghost var heap0, pending0 := heap, pending;
      PairedSize(heap, pending);
      ghost var k: nat;
      assert no !in heap;
      pending := pending[no := (payload, deadline)];
      heap, k := HeapPush(heap, no);
      PushPaired(heap0, pending0, no, (payload, deadline), k);
      PushContents(heap0, pending0, Entry(no, payload, deadline), k);
      stats := stats.(maxHeld := if stats.maxHeld > |pending| then stats.maxHeld else |pending|);
      if no != nextSeq {
        stats := stats.(reordered := stats.reordered + 1);
      }
    }

    method AdvanceTo(delivered: int)
      requires Valid()
      modifies `stats, `nextSeq, `seen
      ensures Valid() && View() == Advance(old(View()), delivered)
    {
      stats := stats.(delivered := stats.delivered + 1);
      nextSeq := delivered + 1;
      seen := seen + {delivered};
      if |seen| > capacity * 4 {
        var cutoff := nextSeq - capacity * 2;
        seen := set s | s in seen && s >= cutoff;
      }
    }

    /** heappop and the matching pending.pop. */
    method PopHead() returns (head: int, payload: Bytes)
      requires Valid() && heap != []
      modifies `heap, `pending
      ensures Valid() && View() == Drop(old(View()))
      ensures head == old(View().held[0].no) && payload == old(View().held[0].payload)
    {
      PopContents(heap, pending);
      head := heap[0];
      payload := pending[head].0;
      heap := heap[1..];
      pending := pending - {head};
    }

    method Skip(skipped: nat)
      requires Valid()
      modifies `stats
      ensures Valid() && View() == CountGap(old(View()), skipped)
    {
      stats := stats.(gapSkips := stats.gapSkips + skipped);
    }

    /** heappop, pending.pop and `_advance`: hand out the head. */
    method ReleaseHead() returns (payload: Bytes)
      requires Valid() && heap != []
      modifies this
      ensures Valid() && View() == Release(old(View())) && payload == old(View().held[0].payload)
    {
      var head;
      head, payload := PopHead();
      AdvanceTo(head);
    }

    method Drain(now: real) returns (out: seq<Bytes>)
      requires Valid()
      modifies this
      ensures Valid()
      ensures var (b, rel) := Resequencer.Drain(old(View()), now); View() == b && out == Payloads(rel)
    {
      if priming {
        if now < primeDeadline {
          return [];
        }
        priming := false;
      }
      ghost var b := View();
      ghost var goal := DrainLoop(b, now);
      assert Resequencer.Drain(old(View()), now) == goal;
      ExtendsSelf(goal);
      hide DrainLoop, Paired, Release, CountGap, Drop, Extends, Payloads, Contents, Resequencer.Drain;
      out := [];
      while heap != []
        invariant Valid() && b == View()
        invariant Extends(goal, DrainLoop(b, now), out)
        decreases |heap|
      {
        DrainLoopUnfolds(b, now);
        HeadIs(heap, pending);
        ghost var rest := DrainLoop(b, now);
        var head := heap[0];
        if head < nextSeq {
          var _, _ := PopHead();
          b := Drop(b);
          continue;
        }
        if head == nextSeq {
          var payload := ReleaseHead();
          b := Release(b);
          ExtendsTrans(goal, rest, DrainLoop(b, now), out, [payload]);
          out := out + [payload];
          continue;
        }
        var deadline := pending[head].1;
        if now >= deadline {
          var skipped := head - nextSeq;
          Skip(skipped);
          var payload := ReleaseHead();
          b := Release(CountGap(b, skipped));
          ExtendsTrans(goal, rest, DrainLoop(b, now), out, [payload]);
          out := out + [payload];
          continue;
        }
        ExtendsDone(goal, b, out);
        return;
      }
      DrainLoopUnfolds(b, now);
      ExtendsDone(goal, b, out);
    }

    method ForceFlush() returns (out: seq<Bytes>)
      requires Valid()
      modifies this
      ensures Valid()
      ensures var (b, rel) := Resequencer.ForceFlush(old(View())); View() == b && out == Payloads(rel)
    {
      SizeIs();
      priming := false;
      stats := stats.(overflowFlushes := stats.overflowFlushes + 1);
      var target := |pending| - capacity / 2;
      out := PopOldest(target);
    }

    method Flush() returns (out: seq<Bytes>)
      requires Valid()
      modifies this
      ensures Valid()
      ensures var (b, rel) := Resequencer.Flush(old(View())); View() == b && out == Payloads(rel)
    {
      priming := false;
      out := PopOldest(|heap|);
    }

    /** The popping loop `_force_flush` and `flush` have in common. */
    method PopOldest(count: int) returns (out: seq<Bytes>)
      requires Valid()
      modifies this
      ensures Valid()
      ensures var (b, rel) := FlushLoop(old(View()), count); View() == b && out == Payloads(rel)
    {
      ghost var b := View();
      ghost var goal := FlushLoop(b, count);
      ExtendsSelf(goal);
      hide FlushLoop, Paired, Release, Drop, Advance, Extends, Payloads, Contents;
      out := [];
      var target := count;
      while heap != [] && target > 0
        invariant Valid() && b == View()
        invariant Extends(goal, FlushLoop(b, target), out)
        decreases |heap|
      {
        FlushLoopUnfolds(b, target);
        HeadIs(heap, pending);
        ghost var rest := FlushLoop(b, target);
        var head, payload := PopHead();
        target := target - 1;
        b := Drop(b);
        if head >= nextSeq {
          AdvanceTo(head);
          b := Advance(b, head);
          ExtendsTrans(goal, rest, FlushLoop(b, target), out, [payload]);
          out := out + [payload];
        }
      }
      FlushLoopUnfolds(b, target);
      ExtendsDone(goal, b, out);
    }

    method Tick(now: real) returns (out: seq<Bytes>)
      requires Valid()
      modifies this
      ensures Valid()
      ensures var (b, rel) := Resequencer.Tick(old(View()), now); View() == b && out == Payloads(rel)
    {
      out := this.Drain(now);
    }

    method Reset()
      requires Valid()
      modifies this
      ensures Valid() && View() == Resequencer.Reset(old(View()))
    {
      heap, pending, seen := [], map[], {};
      nextSeq, started, priming, primeDeadline := 0, false, false, 0.0;
    }
  }
}
