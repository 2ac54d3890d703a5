/**
 Nothing is lost on the way to the server.  If every packet gets through over some link, and no datagram is overtaken
 by a whole replay window and no packet by a whole timeout, then what the server writes is exactly what was sent.
 */
module Delivery {
  import opened Bytes
  import opened Crypto
  import opened Nonces
  import opened Protocol
  import opened Receiving
  import opened Replay
  import opened Resequencer
  import opened Skew
  import T = Tunnel
  import S = Concentrator

  // ----- the windows of a session's uplinks

  /** The replay window an uplink has, or would have once it joins. */
  function WindowIn(links: seq<S.PeerLink>, linkId: nat): Window {
    match S.Find(links, linkId) case None => NEW_WINDOW case Some(i) => links[i].replay
  }

  function WindowOf(s: S.Server, id: nat, linkId: nat): Window {
    if id in s.sessions then WindowIn(s.sessions[id].links, linkId) else NEW_WINDOW
  }

  lemma {:induction false} FindSameIds(links: seq<S.PeerLink>, links': seq<S.PeerLink>, linkId: nat)
    requires |links| == |links'| && forall i :: 0 <= i < |links| ==> links[i].linkId == links'[i].linkId
    ensures S.Find(links, linkId) == S.Find(links', linkId)
    decreases |links|
  {
    if links != [] && links[0].linkId != linkId { FindSameIds(links[1..], links'[1..], linkId); }
  }

  lemma {:induction false} FindAppended(links: seq<S.PeerLink>, p: S.PeerLink, linkId: nat)
    ensures S.Find(links + [p], linkId)
         == match S.Find(links, linkId)
            case Some(i) => Some(i)
            case None => if p.linkId == linkId then Some(|links|) else None
    decreases |links|
  {
    if links == [] {
      assert S.Find([], linkId) == None;
    } else {
      assert (links + [p])[1..] == links[1..] + [p];
      FindAppended(links[1..], p, linkId);
    }
  }

  /** Joining gives the new uplink a fresh window and moves no other. */
  lemma {:induction false} JoinedWindows(links: seq<S.PeerLink>, linkId: nat, addr: S.Address, now: real, l: nat)
    ensures var (joined, i) := S.Joined(links, linkId, addr, now);
            S.Find(joined, linkId) == Some(i) && WindowIn(joined, l) == WindowIn(links, l)
  {
    var (joined, i) := S.Joined(links, linkId, addr, now);
    if S.Find(links, linkId).Some? {
      FindSameIds(links, joined, linkId);
      FindSameIds(links, joined, l);
    } else {
      var p := S.PeerLink(linkId, addr, 0, 0, 0, now, NEW_WINDOW);
      FindAppended(links, p, linkId);
      FindAppended(links, p, l);
    }
  }

  /** The same uplinks, where one has heard a counter. */
  ghost predicate OnlyHeard(links: seq<S.PeerLink>, links': seq<S.PeerLink>, i: nat, counter: nat)
    requires i < |links|
  {
    && |links'| == |links|
    && forall j :: 0 <= j < |links| ==>
         && links'[j].linkId == links[j].linkId
         && links'[j].replay == if j == i then links[j].replay.Record(counter) else links[j].replay
  }

  lemma {:induction false} HeardWindows(links: seq<S.PeerLink>, links': seq<S.PeerLink>, i: nat, linkId: nat,
                                        counter: nat, l: nat)
    requires i < |links| && OnlyHeard(links, links', i, counter) && S.Find(links, linkId) == Some(i)
    ensures WindowIn(links', l) == if l == linkId then WindowIn(links, l).Record(counter) else WindowIn(links, l)
  {
    FindSameIds(links, links', l);
  }

  // ----- what one datagram does to a session

  /** The receive buffer of the session and what it has handed out, or what a new session starts with. */
  function Inbox(s: S.Server, id: nat): (Buffer, seq<Entry>) {
    if id in s.sessions then (s.sessions[id].reorder, s.sessions[id].released)
    else (NewBuffer(s.reorderMs, S.REORDER_CAPACITY), [])
  }

  function Fed(inbox: (Buffer, seq<Entry>), no: int, payload: Bytes, now: real): (Buffer, seq<Entry>) {
    var (b, out) := Push(inbox.0, no, payload, now);
    (b, inbox.1 + out)
  }

  ghost predicate SameServer(s: S.Server, s': S.Server) {
    s'.sealer == s.sealer && s'.reorderMs == s.reorderMs
  }

  ghost predicate Untouched(s: S.Server, s': S.Server, id: nat) {
    (id in s.sessions <==> id in s'.sessions) && (id in s.sessions ==> s'.sessions[id] == s.sessions[id])
  }

  lemma DeliveredTo(s: S.Server, session: S.Session, i: nat, f: Frame, now: real)
    requires i < |session.links| && session.sessionId == f.sessionId && f.kind != CLOSE
    ensures var s' := S.Deliver(s, session, i, f, now).0;
            && SameServer(s, s') && f.sessionId in s'.sessions
            && var after := s'.sessions[f.sessionId];
               && |after.links| == |session.links|
               && (forall j :: 0 <= j < |session.links| ==>
                     && after.links[j].linkId == session.links[j].linkId
                     && after.links[j].replay == session.links[j].replay)
               && (after.reorder, after.released)
                  == (if f.kind == DATA && f.payload != []
                      then Fed((session.reorder, session.released), f.seqNo, f.payload, now)
                      else (session.reorder, session.released))
  {
    hide Push, EncodeFrame;
  }

  lemma Elsewhere(s: S.Server, f: Frame, addr: S.Address, now: real, id: nat)
    requires f.sessionId != id
    ensures var s' := S.Process(s, f, addr, now).0; SameServer(s, s') && Untouched(s, s', id)
  {
    hide Push, EncodeFrame, S.Joined, S.SessionFor;
  }

  /** A frame of the session: its uplink hears the counter, and data reaches the buffer if the counter is fresh. */
  lemma Processed(s: S.Server, f: Frame, addr: S.Address, now: real, l: nat)
    requires f.kind != CLOSE
    ensures var s', w := S.Process(s, f, addr, now).0, WindowOf(s, f.sessionId, f.linkId);
            && SameServer(s, s')
            && WindowOf(s', f.sessionId, l)
               == (if l == f.linkId then w.Record(f.counter) else WindowOf(s, f.sessionId, l))
            && Inbox(s', f.sessionId)
               == (if w.Fresh(f.counter) && f.kind == DATA && f.payload != []
                   then Fed(Inbox(s, f.sessionId), f.seqNo, f.payload, now) else Inbox(s, f.sessionId))
  {
    hide S.Joined, S.Deliver, Push, Fed;
    var session := S.SessionFor(s, f.sessionId, now).(sessionId := f.sessionId);
    var (links, i) := S.Joined(session.links, f.linkId, addr, now);
    JoinedWindows(session.links, f.linkId, addr, now, l);
    JoinedWindows(session.links, f.linkId, addr, now, f.linkId);
    var peer := links[i];
    var s' := S.Process(s, f, addr, now).0;
    if peer.replay.Fresh(f.counter) {
      var seen := peer.(replay := peer.replay.Record(f.counter), lastSeen := now, rx := peer.rx + 1);
      DeliveredTo(s, session.(links := links[i := seen]), i, f, now);
    }
    assert f.sessionId in s'.sessions && OnlyHeard(links, s'.sessions[f.sessionId].links, i, f.counter);
    HeardWindows(links, s'.sessions[f.sessionId].links, i, f.linkId, f.counter, l);
  }

  lemma NewTick(reorderMs: real, now: real)
    ensures Tick(NewBuffer(reorderMs, S.REORDER_CAPACITY), now) == (NewBuffer(reorderMs, S.REORDER_CAPACITY), [])
  {
    var b := NewBuffer(reorderMs, S.REORDER_CAPACITY);
    assert b.(priming := false) == b;
    NothingToDrain(b, now);
  }

  /** One pass of the ticker, seen from one session. */
  lemma Ticked(s: S.Server, now: real, id: nat, l: nat)
    ensures var s' := S.TickAll(s, now);
            && SameServer(s, s') && WindowOf(s', id, l) == WindowOf(s, id, l)
            && Inbox(s', id) == (var (b, out) := Tick(Inbox(s, id).0, now); (b, Inbox(s, id).1 + out))
  {
    hide Tick, NewBuffer;
    NewTick(s.reorderMs, now);
    var none: seq<Entry> := [];
    assert none + none == none;
  }

  // ----- what reaches the server

  datatype Step = Datagram(data: Bytes, addr: S.Address, now: real) | Ticker(now: real)

  function ServeOne(s: S.Server, step: Step): S.Server {
    match step
    case Datagram(data, addr, now) => S.Receive(s, data, addr, now).0
    case Ticker(now) => S.TickAll(s, now)
  }

  function Serve(s: S.Server, steps: seq<Step>): S.Server
    decreases |steps|
  {
    if steps == [] then s else Serve(ServeOne(s, steps[0]), steps[1..])
  }

  lemma {:induction false} ServeLast(s: S.Server, steps: seq<Step>, step: Step)
    ensures Serve(s, steps + [step]) == ServeOne(Serve(s, steps), step)
    decreases |steps|
  {
    hide ServeOne;
    if steps == [] {
      assert ([] + [step])[1..] == [];
    } else {
      assert (steps + [step])[1..] == steps[1..] + [step];
      ServeLast(ServeOne(s, steps[0]), steps[1..], step);
    }
  }

  /** An authentic datagram of the session that passes the size gate. */
  predicate Genuine(sealer: Sealer, id: nat, step: Step) {
    && step.Datagram? && |step.data| <= MAX_DATAGRAM
    && DecodeFrame(sealer, step.data).Some? && DecodeFrame(sealer, step.data).value.sessionId == id
  }

  function FrameIn(sealer: Sealer, id: nat, step: Step): Frame
    requires Genuine(sealer, id, step)
  {
    DecodeFrame(sealer, step.data).value
  }

  /** The packet a frame brings, or nothing. */
  function Brought(f: Frame): Bytes {
    if f.kind == DATA then f.payload else []
  }

  /** What a step means to the receive side of one session. */
  function ItemIn(sealer: Sealer, id: nat, step: Step): Item {
    if step.Ticker? then Pass(step.now)
    else if Genuine(sealer, id, step) then
      var f := FrameIn(sealer, id, step);
      Heard(f.linkId, f.counter, f.seqNo, Brought(f), step.now)
    else Noise
  }

  function Items(sealer: Sealer, id: nat, steps: seq<Step>): seq<Item> {
    seq(|steps|, k requires 0 <= k < |steps| => ItemIn(sealer, id, steps[k]))
  }

  /** The receive side of a session. */
  function View(s: S.Server, id: nat): Receiver {
    Receiver((l: int) => if l >= 0 then WindowOf(s, id, l) else NEW_WINDOW, Inbox(s, id).0, Inbox(s, id).1)
  }

  // ----- the server as a receiver

  lemma ReceivedElsewhere(s: S.Server, id: nat, step: Step)
    requires step.Datagram? && !Genuine(s.sealer, id, step)
    ensures SameServer(s, ServeOne(s, step)) && Takes(View(s, id), Noise, View(ServeOne(s, step), id))
  {
    hide DecodeFrame, S.Process, WindowIn;
    if |step.data| <= MAX_DATAGRAM && DecodeFrame(s.sealer, step.data).Some? {
      Elsewhere(s, DecodeFrame(s.sealer, step.data).value, step.addr, step.now, id);
    }
  }

  lemma ReceivedHere(s: S.Server, id: nat, step: Step)
    requires Genuine(s.sealer, id, step) && FrameIn(s.sealer, id, step).kind != CLOSE
    ensures SameServer(s, ServeOne(s, step))
    ensures Takes(View(s, id), ItemIn(s.sealer, id, step), View(ServeOne(s, step), id))
  {
    hide DecodeFrame, S.Process, WindowOf, Inbox, Push;
    var f := FrameIn(s.sealer, id, step);
    Processed(s, f, step.addr, step.now, f.linkId);
    forall l: nat
      ensures WindowOf(ServeOne(s, step), id, l)
           == (if l == f.linkId then WindowOf(s, id, l).Record(f.counter) else WindowOf(s, id, l))
    {
      Processed(s, f, step.addr, step.now, l);
    }
  }

  lemma TickedHere(s: S.Server, id: nat, step: Step)
    requires step.Ticker?
    ensures SameServer(s, ServeOne(s, step)) && Takes(View(s, id), Pass(step.now), View(ServeOne(s, step), id))
  {
    hide WindowOf, Inbox, Tick, S.TickAll;
    Ticked(s, step.now, id, 0);
    forall l: nat ensures WindowOf(S.TickAll(s, step.now), id, l) == WindowOf(s, id, l) { Ticked(s, step.now, id, l); }
  }

  lemma NotGenuine(sealer: Sealer, id: nat, step: Step)
    requires step.Ticker?
    ensures !Genuine(sealer, id, step)
  {
  }

  /** Whatever reaches the server, one session's receive side does with it what a receiver must. */
  lemma ServeTakes(s: S.Server, id: nat, step: Step)
    requires Genuine(s.sealer, id, step) ==> FrameIn(s.sealer, id, step).kind != CLOSE
    ensures SameServer(s, ServeOne(s, step))
    ensures Takes(View(s, id), ItemIn(s.sealer, id, step), View(ServeOne(s, step), id))
  {
    hide ServeOne, View, DecodeFrame, Takes, Genuine;
    if step.Ticker? {
      TickedHere(s, id, step);
      NotGenuine(s.sealer, id, step);
    } else if Genuine(s.sealer, id, step) {
      ReceivedHere(s, id, step);
    } else {
      ReceivedElsewhere(s, id, step);
    }
  }

  ghost predicate NoClose(sealer: Sealer, id: nat, steps: seq<Step>) {
    forall i | 0 <= i < |steps| && Genuine(sealer, id, steps[i]) :: FrameIn(sealer, id, steps[i]).kind != CLOSE
  }

  lemma {:induction false} ServeSame(s: S.Server, id: nat, steps: seq<Step>, k: nat)
    requires k <= |steps| && NoClose(s.sealer, id, steps)
    ensures SameServer(s, Serve(s, steps[..k]))
  {
    hide ServeOne, DecodeFrame, Genuine, FrameIn;
    if k > 0 {
      ServeSame(s, id, steps, k - 1);
      assert steps[..k] == steps[..k - 1] + [steps[k - 1]];
      ServeLast(s, steps[..k - 1], steps[k - 1]);
      ServeTakes(Serve(s, steps[..k - 1]), id, steps[k - 1]);
    } else {
      assert steps[..0] == [];
    }
  }

  /** The session's receive side after each prefix of the steps. */
  function Views(s: S.Server, id: nat, steps: seq<Step>): seq<Receiver> {
    seq(|steps| + 1, k requires 0 <= k <= |steps| => View(Serve(s, steps[..k]), id))
  }

  lemma {:induction false} ServerTraces(s: S.Server, id: nat, steps: seq<Step>)
    requires NoClose(s.sealer, id, steps)
    ensures Trace(Views(s, id, steps), Items(s.sealer, id, steps))
  {
    hide Serve, ServeOne, View, Takes, ItemIn, DecodeFrame, Genuine, FrameIn;
    var rs, items := Views(s, id, steps), Items(s.sealer, id, steps);
    forall k | 0 <= k < |items| ensures Takes(rs[k], items[k], rs[k + 1]) {
      ServeSame(s, id, steps, k);
      assert steps[..k + 1] == steps[..k] + [steps[k]];
      ServeLast(s, steps[..k], steps[k]);
      ServeTakes(Serve(s, steps[..k]), id, steps[k]);
    }
  }

  // ----- from the client's side

  function NumberedOne(op: T.Sending): seq<Bytes> {
    if op.Packet? && op.chosen != [] then [op.packet] else []
  }

  /** The packets a run of sends numbers: those there was a link for. */
  function Numbered(ops: seq<T.Sending>): seq<Bytes> {
    if ops == [] then [] else NumberedOne(ops[0]) + Numbered(ops[1..])
  }

  lemma OneCarries(c: T.Client, op: T.Sending, before: seq<Bytes>)
    requires c.sessionId < MASK32 && c.seqNo == |before| && |before + NumberedOne(op)| < MASK64
    requires op.Control? ==> op.kind != DATA
    ensures var now := NumberedOne(op);
            var (c1, ds) := T.SendOne(c, op);
            && (forall d :: d in ds ==> T.Carries(c.sealer, c.sessionId, d, before + now))
            && c1.sealer == c.sealer && c1.sessionId == c.sessionId && c1.seqNo == |before + now|
  {
    hide T.Carries, T.Conveys, T.SendCopies, T.SendControl;
    match op
    case Control(linkId, kind) =>
      T.ControlCarries(c, linkId, kind, before);
      assert before + [] == before;
    case Packet(chosen, packet) =>
      if chosen != [] {
        T.CopiesCarry(c.(seqNo := c.seqNo + 1), chosen, before + [packet]);
      }
  }

  /** Everything a run of sends puts on the wire carries a packet of the stream, or none. */
  lemma {:induction false} RunCarries(c: T.Client, ops: seq<T.Sending>, before: seq<Bytes>)
    requires c.sessionId < MASK32 && c.seqNo == |before| && |before + Numbered(ops)| < MASK64
    requires forall i :: 0 <= i < |ops| && ops[i].Control? ==> ops[i].kind != DATA
    ensures var (c', ds) := T.SendRun(c, ops);
            forall d :: d in ds ==> T.Carries(c.sealer, c.sessionId, d, before + Numbered(ops))
    decreases |ops|
  {
    hide T.Carries, T.SendOne;
    if ops != [] {
      var (c1, ds) := T.SendOne(c, ops[0]);
      var now := NumberedOne(ops[0]);
      var after := Numbered(ops[1..]);
      assert before + Numbered(ops) == before + now + after;
      OneCarries(c, ops[0], before);
      RunCarries(c1, ops[1..], before + now);
      forall d | d in ds ensures T.Carries(c.sealer, c.sessionId, d, before + now + after) {
        T.CarriesLonger(c.sealer, c.sessionId, d, before + now, after);
      }
    }
  }

  /** Only datagrams of this run, and datagrams that are not this session's, reach the server; no close does. */
  ghost predicate FromWire(sealer: Sealer, id: nat, ds: seq<Bytes>, steps: seq<Step>) {
    && (forall i | 0 <= i < |steps| && Genuine(sealer, id, steps[i]) :: steps[i].data in ds)
    && NoClose(sealer, id, steps)
  }

  /** The datagrams of a run of sends tell one from another by link and counter. */
  lemma {:induction false} WireUnrepeated(c: T.Client, ops: seq<T.Sending>, steps: seq<Step>)
    requires T.Narrow(T.SendRun(c, ops).0) && FromWire(c.sealer, c.sessionId, T.SendRun(c, ops).1, steps)
    ensures Unrepeated(Items(c.sealer, c.sessionId, steps))
  {
    var sealer, id := c.sealer, c.sessionId;
    var (c', ds) := T.SendRun(c, ops);
    T.RunFresh(c, ops);
    hide T.SendRun, LinkOf, CounterIn, T.Narrow, T.Counts, DecodeFrame, Rising;
    var items := Items(sealer, id, steps);
    forall i | 0 <= i < |items| && items[i].Heard? ensures items[i].counter != 0 {
      HeaderIn(sealer, steps[i].data);
      RisingUnique(T.Counts(c), T.Counts(c'), ds, steps[i].data, steps[i].data);
    }
    forall i, j | 0 <= i < j < |items| && items[i].Heard? && items[j].Heard?
                  && items[i].link == items[j].link && items[i].counter == items[j].counter
      ensures items[i].no == items[j].no && items[i].payload == items[j].payload
    {
      HeaderIn(sealer, steps[i].data);
      HeaderIn(sealer, steps[j].data);
      RisingUnique(T.Counts(c), T.Counts(c'), ds, steps[i].data, steps[j].data);
    }
  }

  lemma CarriedName(sealer: Sealer, id: nat, step: Step, sent: seq<Bytes>)
    requires Genuine(sealer, id, step) ==> T.Carries(sealer, id, step.data, sent)
    ensures var it := ItemIn(sealer, id, step);
            it.Heard? && it.payload != [] ==> 1 <= it.no <= |sent| && it.payload == sent[it.no - 1]
  {
    hide DecodeFrame;
  }

  /** Every packet that arrives is the one its number names. */
  lemma {:induction false} WireNames(c: T.Client, ops: seq<T.Sending>, steps: seq<Step>)
    requires c.sessionId < MASK32 && c.seqNo == 0 && |Numbered(ops)| < MASK64
    requires forall i :: 0 <= i < |ops| && ops[i].Control? ==> ops[i].kind != DATA
    requires FromWire(c.sealer, c.sessionId, T.SendRun(c, ops).1, steps)
    ensures Names(Items(c.sealer, c.sessionId, steps), Numbered(ops))
  {
    hide T.SendRun, DecodeFrame, Numbered, T.Carries, ItemIn;
    var sealer, id, sent := c.sealer, c.sessionId, Numbered(ops);
    assert [] + sent == sent;
    RunCarries(c, ops, []);
    var items := Items(sealer, id, steps);
    forall i | 0 <= i < |items| && items[i].Heard? && items[i].payload != []
      ensures 1 <= items[i].no <= |sent| && items[i].payload == sent[items[i].no - 1]
    {
      CarriedName(sealer, id, steps[i], sent);
    }
  }

  lemma NewStarting(s: S.Server, id: nat)
    requires id !in s.sessions
    ensures Starting(View(s, id), s.reorderMs, S.REORDER_CAPACITY)
  {
  }

  lemma {:induction false} ServeNothing(s: S.Server)
    ensures Serve(s, []) == s
  {
  }

  /**
   Delivery.  A client sends, over any choice of links and with control datagrams in between, and a server that has
   no such session gets its datagrams over any links, in any order and with any repeats, among foreign ones.  If every
   numbered packet gets through somewhere, no datagram comes a window or more behind a later one of its link, no
   packet first comes a timeout or more after one behind it, and the buffer has room for what has to wait, then once the
   ticker has run after priming the server has written exactly the packets sent, in order, and skipped nothing.
   */
  lemma {:induction false} Delivered(c: T.Client, ops: seq<T.Sending>, s: S.Server, steps: seq<Step>)
    requires c.sessionId < MASK32 && c.seqNo == 0 && s.sealer == c.sealer && c.sessionId !in s.sessions
    requires T.Narrow(T.SendRun(c, ops).0) && |Numbered(ops)| < MASK64
    requires forall i :: 0 <= i < |ops| && ops[i].Control? ==> ops[i].kind != DATA
    requires FromWire(c.sealer, c.sessionId, T.SendRun(c, ops).1, steps)
    requires Benign(Items(c.sealer, c.sessionId, steps), Numbered(ops), Seconds(s.reorderMs), 4096)
    ensures var (b, released) := Inbox(Serve(s, steps), c.sessionId);
            && Payloads(released) == Numbered(ops) && b.held == []
            && b.stats.gapSkips == 0 && b.stats.overflowFlushes == 0
  {
    var id := c.sessionId;
    var rs, items := Views(s, id, steps), Items(c.sealer, id, steps);
    NewStarting(s, id);
    ServerTraces(s, id, steps);
    WireNames(c, ops, steps);
    WireUnrepeated(c, ops, steps);
    hide T.SendRun, T.Narrow, FromWire, Serve, Numbered, Inbox, Trace, Starting, Unrepeated, Names, Benign, Items;
    assert rs[0] == View(s, id) by { assert steps[..0] == []; ServeNothing(s); }
    SentWhole(rs, items, s.reorderMs, S.REORDER_CAPACITY, Numbered(ops));
    assert |items| == |steps| && steps[..|steps|] == steps;
  }
}
