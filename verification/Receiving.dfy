/**
 One receiver of a bonded stream, whichever end it is: a replay window for every link in front of one reorder buffer.
 If every packet of the stream gets through over some link, and no datagram is overtaken by a whole window and no packet
 by a whole timeout, the windows cost nothing and the buffer hands out exactly the stream.
 */
module Receiving {
  import opened Bytes
  import opened Replay
  import opened Resequencer
  import opened ReorderRuns
  import opened Restoration
  import opened Skew

  // ----- what a receiver meets

  /**
   An authentic datagram over a link, empty unless it carries a packet; a pass of the ticker; or nothing of concern.
   */
  datatype Item = Heard(link: int, counter: nat, no: int, payload: Bytes, now: real) | Pass(now: real) | Noise

  datatype Receiver = Receiver(window: int -> Window, buffer: Buffer, released: seq<Entry>)

  /** What an item means to the buffer, if no window stands in the way. */
  function EventIn(item: Item): seq<Event> {
    match item
    case Heard(_, _, no, payload, now) => if payload != [] then [Arrive(no, payload, now)] else []
    case Pass(now) => [Timer(now)]
    case Noise => []
  }

  function Events(items: seq<Item>): seq<Event> {
    if items == [] then [] else EventIn(items[0]) + Events(items[1..])
  }

  ghost predicate SameWindows(r: Receiver, r': Receiver) {
    forall l :: r'.window(l) == r.window(l)
  }

  ghost predicate SameBuffer(r: Receiver, r': Receiver) {
    r'.buffer == r.buffer && r'.released == r.released
  }

  ghost predicate Moved(r: Receiver, done: (Buffer, seq<Entry>), r': Receiver) {
    r'.buffer == done.0 && r'.released == r.released + done.1
  }

  /** What one item must do: move its own link's window, and feed the buffer exactly when that window finds it fresh. */
  ghost predicate Takes(r: Receiver, item: Item, r': Receiver) {
    match item
    case Noise => SameWindows(r, r') && SameBuffer(r, r')
    case Pass(now) => SameWindows(r, r') && Moved(r, Tick(r.buffer, now), r')
    case Heard(link, counter, no, payload, now) =>
      && (forall l :: r'.window(l) == if l == link then r.window(l).Record(counter) else r.window(l))
      && (if r.window(link).Fresh(counter) && payload != [] then Moved(r, Push(r.buffer, no, payload, now), r')
          else SameBuffer(r, r'))
  }

  /** A time limit in milliseconds as the buffer keeps it; a negative one counts as none. */
  function Seconds(ms: real): real {
    if ms > 0.0 then ms / 1000.0 else 0.0
  }

  /** A capacity as the buffer keeps it. */
  function Slots(capacity: int): nat {
    if capacity > 8 then capacity else 8
  }

  /** Nothing received yet. */
  ghost predicate Starting(r: Receiver, reorderMs: real, capacity: int) {
    (forall l :: r.window(l) == NEW_WINDOW) && r.buffer == NewBuffer(reorderMs, capacity) && r.released == []
  }

  /** No two datagrams of a link share a counter unless they are the same, and no counter is 0. */
  ghost predicate Unrepeated(items: seq<Item>) {
    && (forall i :: 0 <= i < |items| && items[i].Heard? ==> items[i].counter != 0)
    && (forall i, j | 0 <= i < j < |items| && items[i].Heard? && items[j].Heard? ::
          items[i].link == items[j].link && items[i].counter == items[j].counter ==>
            items[i].no == items[j].no && items[i].payload == items[j].payload)
  }

  /** On no link does a datagram arrive a whole window or more behind a later one. */
  ghost predicate NearlyInOrder(items: seq<Item>) {
    forall i, j :: 0 <= i < j < |items| && items[i].Heard? && items[j].Heard? && items[i].link == items[j].link ==>
      items[i].counter <= items[j].counter || items[i].counter - items[j].counter < 4096
  }

  // ----- where the events of an item stand

  lemma {:induction false} EventsSplit(a: seq<Item>, b: seq<Item>)
    ensures Events(a + b) == Events(a) + Events(b)
    decreases |a|
  {
    hide EventIn;
    if a == [] {
      assert a + b == b;
    } else {
      assert (a + b)[1..] == a[1..] + b;
      EventsSplit(a[1..], b);
    }
  }

  lemma {:induction false} OneEvent(item: Item)
    ensures Events([item]) == EventIn(item) && |EventIn(item)| <= 1
  {
    assert [item][1..] == [];
  }

  lemma {:induction false} EventsAt(items: seq<Item>, k: nat)
    requires k < |items|
    ensures var evs, n := Events(items), |Events(items[..k])|;
            var one := EventIn(items[k]);
            && |one| <= 1 && n + |one| <= |evs| && evs[n..n + |one|] == one && |Events(items[..k + 1])| == n + |one|
  {
    hide EventIn;
    var a, b := items[..k], items[k + 1..];
    assert items == a + [items[k]] + b && items[..k + 1] == a + [items[k]];
    EventsSplit(a + [items[k]], b);
    EventsSplit(a, [items[k]]);
    OneEvent(items[k]);
  }

  lemma {:induction false} EventsGrow(items: seq<Item>, i: nat, k: nat)
    requires i <= k <= |items|
    ensures |Events(items[..i])| <= |Events(items[..k])|
  {
    assert items[..k] == items[..i] + items[i..k];
    EventsSplit(items[..i], items[i..k]);
  }

  /** A packet heard before item k is among the events before those of item k. */
  lemma {:induction false} EventSeen(items: seq<Item>, i: nat, k: nat)
    requires i < k < |items| && items[i].Heard? && items[i].payload != []
    ensures var evs, n := Events(items), |Events(items[..k])|; n <= |evs| && Seen(evs, n, items[i].no)
  {
    EventsAt(items, i);
    EventsAt(items, k);
    EventsGrow(items, i + 1, k);
    hide Events;
    var evs, n := Events(items), |Events(items[..i])|;
    assert evs[n..n + 1][0] == evs[n];
    ArrivalSeen(evs, |Events(items[..k])|, n);
  }

  // ----- windows do not get in the way

  predicate Over(item: Item, link: int, counter: nat) {
    item.Heard? && item.link == link && item.counter == counter
  }

  /** The counter came over the link in one of the first k items. */
  ghost predicate CameOver(items: seq<Item>, k: nat, link: int, counter: nat)
    requires k <= |items|
  {
    exists i :: 0 <= i < k && Over(items[i], link, counter)
  }

  lemma CameOverMore(items: seq<Item>, k: nat, link: int, counter: nat)
    requires k < |items|
    ensures CameOver(items, k + 1, link, counter)
       <==> CameOver(items, k, link, counter) || Over(items[k], link, counter)
  {
    hide Over;
  }

  /** The window has accepted exactly what came over its link. */
  ghost predicate Recorded(w: Window, items: seq<Item>, k: nat, link: int)
    requires k <= |items|
  {
    w.Valid() && w.size == NEW_WINDOW.size && forall c: nat :: c in w.accepted <==> CameOver(items, k, link, c)
  }

  /** A datagram is fresh exactly when its counter has not come before. */
  lemma FreshWhenNew(w: Window, items: seq<Item>, k: nat, link: int, counter: nat)
    requires k < |items| && NearlyInOrder(items) && Unrepeated(items)
    requires Recorded(w, items, k, link) && Over(items[k], link, counter)
    ensures w.Fresh(counter) <==> !CameOver(items, k, link, counter)
  {
    if w.highest != 0 {
      assert CameOver(items, k, link, w.highest);
      var i :| 0 <= i < k && Over(items[i], link, w.highest);
    }
  }

  lemma RecordedStep(w: Window, w': Window, items: seq<Item>, k: nat, link: int)
    requires k < |items| && NearlyInOrder(items) && Unrepeated(items) && Recorded(w, items, k, link)
    requires if items[k].Heard? && items[k].link == link then w' == w.Record(items[k].counter) else w' == w
    ensures Recorded(w', items, k + 1, link)
  {
    if items[k].Heard? && items[k].link == link { FreshWhenNew(w, items, k, link, items[k].counter); }
    hide CameOver;
    forall c: nat
      ensures CameOver(items, k + 1, link, c) <==> CameOver(items, k, link, c) || Over(items[k], link, c)
    {
      CameOverMore(items, k, link, c);
    }
  }

  /** A datagram that is not fresh has been there before, and so has its packet. */
  lemma {:induction false} StaleIsSeen(w: Window, items: seq<Item>, k: nat)
    requires k < |items| && NearlyInOrder(items) && Unrepeated(items)
    requires items[k].Heard? && items[k].payload != [] && Recorded(w, items, k, items[k].link)
    ensures var n := |Events(items[..k])|;
            n <= |Events(items)| && (!w.Fresh(items[k].counter) ==> Seen(Events(items), n, items[k].no))
  {
    hide Events, Seen;
    EventsAt(items, k);
    FreshWhenNew(w, items, k, items[k].link, items[k].counter);
    if !w.Fresh(items[k].counter) {
      var i :| 0 <= i < k && Over(items[i], items[k].link, items[k].counter);
      EventSeen(items, i, k);
    }
  }

  // ----- the receiver after the first k items

  /** Everything the receiver is promised about what reaches it. */
  ghost predicate Arriving(items: seq<Item>, timeout: real, capacity: nat, stream: int -> Bytes, lo: int, hi: int) {
    NearlyInOrder(items) && Unrepeated(items) && Manageable(Events(items), timeout, capacity, stream, lo, hi)
  }

  ghost predicate Caught(r: Receiver, items: seq<Item>, k: nat, timeout: real, capacity: nat, stream: int -> Bytes,
                         lo: int, hi: int)
    requires k <= |items|
  {
    && (forall l :: Recorded(r.window(l), items, k, l))
    && r.buffer.timeout == timeout && r.buffer.capacity == capacity
    && |Events(items[..k])| <= |Events(items)|
    && Kept(r.buffer, r.released, Events(items), |Events(items[..k])|, stream, lo, hi)
  }

  lemma WindowsTake(r: Receiver, r': Receiver, items: seq<Item>, k: nat)
    requires k < |items| && NearlyInOrder(items) && Unrepeated(items) && Takes(r, items[k], r')
    requires forall l :: Recorded(r.window(l), items, k, l)
    ensures forall l :: Recorded(r'.window(l), items, k + 1, l)
  {
    hide Recorded, NearlyInOrder, Unrepeated, Push, Tick;
    forall l ensures Recorded(r'.window(l), items, k + 1, l) {
      assert Recorded(r.window(l), items, k, l);
      RecordedStep(r.window(l), r'.window(l), items, k, l);
    }
  }

  /** How an item may move the buffer: as its event says, or not at all if it repeats a packet seen before. */
  ghost predicate Moves(r: Receiver, r': Receiver, evs: seq<Event>, n: nat, one: seq<Event>)
    requires n <= |evs|
  {
    if one == [] then SameBuffer(r, r')
    else
      match one[0]
      case Timer(now) => Moved(r, Tick(r.buffer, now), r')
      case Arrive(no, payload, now) =>
        Moved(r, Push(r.buffer, no, payload, now), r') || (SameBuffer(r, r') && Seen(evs, n, no))
      case Shutdown => false
  }

  lemma MovesKeep(r: Receiver, r': Receiver, evs: seq<Event>, n: nat, one: seq<Event>, stream: int -> Bytes, lo: int,
                  hi: int)
    requires n + |one| <= |evs| && evs[n..n + |one|] == one && |one| <= 1 && Moves(r, r', evs, n, one)
    requires Manageable(evs, r.buffer.timeout, r.buffer.capacity, stream, lo, hi)
    requires Kept(r.buffer, r.released, evs, n, stream, lo, hi)
    ensures Kept(r'.buffer, r'.released, evs, n + |one|, stream, lo, hi)
    ensures r'.buffer.timeout == r.buffer.timeout && r'.buffer.capacity == r.buffer.capacity
  {
    hide Manageable, Kept, Push, Tick, Seen;
    if one != [] {
      assert evs[n..n + 1][0] == evs[n];
      if evs[n].Timer? {
        TimerKeeps(r.buffer, r.released, evs, n, stream, lo, hi);
      } else {
        ArriveKeeps(r.buffer, r.released, evs, n, stream, lo, hi);
        if SameBuffer(r, r') && Seen(evs, n, evs[n].no) { RepeatKeeps(r.buffer, r.released, evs, n, stream, lo, hi); }
      }
    }
  }

  lemma {:induction false} TakesMoves(r: Receiver, r': Receiver, items: seq<Item>, k: nat)
    requires k < |items| && NearlyInOrder(items) && Unrepeated(items) && Takes(r, items[k], r')
    requires forall l :: Recorded(r.window(l), items, k, l)
    ensures var n := |Events(items[..k])|;
            n <= |Events(items)| && Moves(r, r', Events(items), n, EventIn(items[k]))
  {
    hide Events, Recorded, NearlyInOrder, Unrepeated, Push, Tick, Seen;
    EventsAt(items, k);
    var item := items[k];
    if item.Heard? && item.payload != [] {
      assert Recorded(r.window(item.link), items, k, item.link);
      StaleIsSeen(r.window(item.link), items, k);
    }
  }

  /** One more item keeps everything: nothing is lost to a window, and the buffer keeps what it has to. */
  lemma TakesKeep(r: Receiver, r': Receiver, items: seq<Item>, k: nat, timeout: real, capacity: nat,
                  stream: int -> Bytes, lo: int, hi: int)
    requires k < |items| && Arriving(items, timeout, capacity, stream, lo, hi) && Takes(r, items[k], r')
    requires Caught(r, items, k, timeout, capacity, stream, lo, hi)
    ensures Caught(r', items, k + 1, timeout, capacity, stream, lo, hi)
  {
    hide Manageable, Kept, Recorded, Events, EventIn, NearlyInOrder, Unrepeated, Moves, Takes;
    EventsAt(items, k);
    WindowsTake(r, r', items, k);
    TakesMoves(r, r', items, k);
    MovesKeep(r, r', Events(items), |Events(items[..k])|, EventIn(items[k]), stream, lo, hi);
  }

  lemma {:induction false} StartingCaught(r: Receiver, items: seq<Item>, reorderMs: real, capacity: int,
                                          stream: int -> Bytes, lo: int, hi: int)
    requires Starting(r, reorderMs, capacity)
    ensures Caught(r, items, 0, r.buffer.timeout, r.buffer.capacity, stream, lo, hi)
  {
    NewKept(reorderMs, capacity, Pruned, Events(items), stream, lo, hi);
    hide Kept, NewBuffer;
    assert items[..0] == [];
  }

  /** The states of a receiver one after the other, as the items come in. */
  ghost predicate Trace(rs: seq<Receiver>, items: seq<Item>) {
    |rs| == |items| + 1 && forall k :: 0 <= k < |items| ==> Takes(rs[k], items[k], rs[k + 1])
  }

  lemma {:induction false} TraceCaught(rs: seq<Receiver>, items: seq<Item>, k: nat, timeout: real, capacity: nat,
                                       stream: int -> Bytes, lo: int, hi: int)
    requires k <= |items| && Trace(rs, items) && Arriving(items, timeout, capacity, stream, lo, hi)
    requires Caught(rs[0], items, 0, timeout, capacity, stream, lo, hi)
    ensures Caught(rs[k], items, k, timeout, capacity, stream, lo, hi)
  {
    hide Takes, Arriving, Caught;
    if k > 0 {
      TraceCaught(rs, items, k - 1, timeout, capacity, stream, lo, hi);
      assert Takes(rs[k - 1], items[k - 1], rs[k]);
      TakesKeep(rs[k - 1], rs[k], items, k - 1, timeout, capacity, stream, lo, hi);
    }
  }

  /** The last pass of the ticker lets everything out. */
  lemma {:induction false} LastPass(r: Receiver, r': Receiver, items: seq<Item>, timeout: real, capacity: nat,
                                    stream: int -> Bytes, lo: int, hi: int)
    requires items != [] && items[|items| - 1].Pass? && lo <= hi && Takes(r, items[|items| - 1], r')
    requires Arriving(items, timeout, capacity, stream, lo, hi) && Settles(Events(items), timeout)
    requires Caught(r, items, |items| - 1, timeout, capacity, stream, lo, hi)
    ensures Payloads(r'.released) == Section(stream, lo, hi) && r'.buffer.held == []
    ensures r'.buffer.stats.gapSkips == 0 && r'.buffer.stats.overflowFlushes == 0
  {
    hide Events, Kept, Manageable, Settles, Tick, Section, Recorded, NearlyInOrder, Unrepeated;
    var k, evs := |items| - 1, Events(items);
    EventsAt(items, k);
    assert items[..k + 1] == items;
    assert evs[|evs| - 1..|evs|][0] == evs[|evs| - 1];
    LastTick(r.buffer, r.released, evs, stream, lo, hi);
  }

  /**
   A new receiver that meets every packet of a stream, under those conditions, has handed out exactly the stream, in
   order, once its ticker has run after priming, and has skipped nothing.
   */
  lemma {:induction false} ReceivedWhole(rs: seq<Receiver>, items: seq<Item>, reorderMs: real, capacity: int,
                                         stream: int -> Bytes, lo: int, hi: int)
    requires Trace(rs, items) && Starting(rs[0], reorderMs, capacity)
    requires items != [] && items[|items| - 1].Pass? && lo <= hi
    requires var b := NewBuffer(reorderMs, capacity);
             Arriving(items, b.timeout, b.capacity, stream, lo, hi) && Settles(Events(items), b.timeout)
    ensures var r := rs[|items|];
            && Payloads(r.released) == Section(stream, lo, hi) && r.buffer.held == []
            && r.buffer.stats.gapSkips == 0 && r.buffer.stats.overflowFlushes == 0
  {
    hide Takes, Arriving, Caught, Settles, Section, NewBuffer, Events;
    var n, b := |items| - 1, NewBuffer(reorderMs, capacity);
    StartingCaught(rs[0], items, reorderMs, capacity, stream, lo, hi);
    TraceCaught(rs, items, n, b.timeout, b.capacity, stream, lo, hi);
    assert Takes(rs[n], items[n], rs[n + 1]);
    LastPass(rs[n], rs[n + 1], items, b.timeout, b.capacity, stream, lo, hi);
  }

  // ----- a stream of packets numbered from 1

  /** The sent packets by their numbers, which start at 1. */
  function Stream(sent: seq<Bytes>): int -> Bytes {
    (no: int) => if 1 <= no <= |sent| then sent[no - 1] else []
  }

  lemma StreamIsAll(sent: seq<Bytes>)
    ensures Section(Stream(sent), 1, |sent| + 1) == sent
  {
  }

  /** Every packet heard is the one its number names. */
  ghost predicate Names(items: seq<Item>, sent: seq<Bytes>) {
    forall i :: 0 <= i < |items| && items[i].Heard? && items[i].payload != [] ==>
      1 <= items[i].no <= |sent| && items[i].payload == sent[items[i].no - 1]
  }

  /** Every packet is among what arrives, somewhere, and the clock does not run backwards. */
  ghost predicate AllArrive(items: seq<Item>, sent: seq<Bytes>) {
    && InTimeOrder(Events(items))
    && forall no :: 1 <= no <= |sent| ==> Seen(Events(items), |Events(items)|, no)
  }

  /** The same of the events. */
  ghost predicate Tells(evs: seq<Event>, sent: seq<Bytes>) {
    forall i :: 0 <= i < |evs| ==>
      && !evs[i].Shutdown?
      && (evs[i].Arrive? ==> 1 <= evs[i].no <= |sent| && evs[i].payload == sent[evs[i].no - 1])
  }

  lemma OneTells(item: Item, sent: seq<Bytes>)
    requires item.Heard? && item.payload != [] ==> 1 <= item.no <= |sent| && item.payload == sent[item.no - 1]
    ensures Tells(EventIn(item), sent)
  {
  }

  lemma BothTell(a: seq<Event>, b: seq<Event>, sent: seq<Bytes>)
    requires Tells(a, sent) && Tells(b, sent)
    ensures Tells(a + b, sent)
  {
  }

  lemma {:induction false} EventsTell(items: seq<Item>, sent: seq<Bytes>)
    requires Names(items, sent)
    ensures Tells(Events(items), sent)
    decreases |items|
  {
    if items != [] {
      var rest := items[1..];
      assert forall i :: 0 <= i < |rest| ==> rest[i] == items[i + 1];
      EventsTell(rest, sent);
      OneTells(items[0], sent);
      hide EventIn;
      BothTell(EventIn(items[0]), Events(rest), sent);
    }
  }

  lemma {:induction false} NamedComplete(items: seq<Item>, sent: seq<Bytes>)
    requires Names(items, sent) && AllArrive(items, sent)
    ensures Complete(Events(items), Stream(sent), 1, |sent| + 1)
  {
    hide Seen, InTimeOrder, Events;
    EventsTell(items, sent);
  }

  /** What a link, and the way to it, must not do to the datagrams of a stream. */
  ghost predicate Benign(items: seq<Item>, sent: seq<Bytes>, timeout: real, capacity: nat) {
    && NearlyInOrder(items) && AllArrive(items, sent)
    && Skewed(Events(items), timeout) && Roomy(Events(items), timeout, capacity, 1) && Settles(Events(items), timeout)
    && items != [] && items[|items| - 1].Pass?
  }

  /** The same for packets numbered from 1: they come out whole. */
  lemma {:induction false} SentWhole(rs: seq<Receiver>, items: seq<Item>, reorderMs: real, capacity: int,
                                     sent: seq<Bytes>)
    requires Trace(rs, items) && Starting(rs[0], reorderMs, capacity) && Unrepeated(items) && Names(items, sent)
    requires Benign(items, sent, Seconds(reorderMs), Slots(capacity))
    ensures var r := rs[|items|];
            && Payloads(r.released) == sent && r.buffer.held == []
            && r.buffer.stats.gapSkips == 0 && r.buffer.stats.overflowFlushes == 0
  {
    NamedComplete(items, sent);
    StreamIsAll(sent);
    hide Trace, Starting, Unrepeated, Names, AllArrive, NearlyInOrder, Complete, Skewed, Roomy, Settles, Events,
      Section, Stream, NewBuffer;
    ReceivedWhole(rs, items, reorderMs, capacity, Stream(sent), 1, |sent| + 1);
  }
}
