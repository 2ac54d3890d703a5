/**
 Nothing is lost on the way back either.  Under the same conditions on what the links do, the client writes exactly the
 packets one Session object has numbered, in order.
 */
module Returning {
  import opened Bytes
  import opened Crypto
  import opened Nonces
  import opened Protocol
  import opened Receiving
  import opened Replay
  import opened Resequencer
  import E = EndToEnd
  import S = Concentrator
  import T = Tunnel

  // ----- what a session sends

  /** A packet from the TUN, a control answer, or whatever else happens to the session's links in between. */
  datatype Sending =
    | Hand(packet: Bytes, now: real)
    | Answer(link: nat, kind: FrameType)
    | Meanwhile(links: seq<S.PeerLink>)

  function Datagrams(d: Option<(Bytes, S.Address)>): seq<Bytes> {
    match d case None => [] case Some((b, _)) => [b]
  }

  function SendOne(s: S.Server, session: S.Session, op: Sending): (S.Session, seq<Bytes>) {
    match op
    case Hand(packet, now) =>
      if S.ReturnLink(session, now) == None then (session, [])
      else
        var (session', d) := S.Return(s, session, packet, now);
        (session', Datagrams(d))
    case Answer(link, kind) =>
      if link >= |session.links| then (session, [])
      else
        var (session', d) := S.SendTo(s, session, link, kind, 0, []);
        (session', Datagrams(d))
    case Meanwhile(links) => (session.(links := links), [])
  }

  function SendRun(s: S.Server, session: S.Session, ops: seq<Sending>): (S.Session, seq<Bytes>)
    decreases |ops|
  {
    if ops == [] then (session, [])
    else
      var (session1, ds) := SendOne(s, session, ops[0]);
      var (session2, more) := SendRun(s, session1, ops[1..]);
      (session2, ds + more)
  }

  function NumberedOne(session: S.Session, op: Sending): seq<Bytes> {
    if op.Hand? && S.ReturnLink(session, op.now) != None then [op.packet] else []
  }

  /** The packets the session numbers: those there was a live link for. */
  function Numbered(s: S.Server, session: S.Session, ops: seq<Sending>): seq<Bytes>
    decreases |ops|
  {
    if ops == [] then []
    else NumberedOne(session, ops[0]) + Numbered(s, SendOne(s, session, ops[0]).0, ops[1..])
  }

  function Counts(session: S.Session): int -> nat {
    (l: int) => if l >= 0 then S.CounterOf(session, l) else 0
  }

  /** Links may join, move, close and come to life, but no counter is ever set back. */
  ghost predicate SteadyOne(session: S.Session, op: Sending) {
    && S.DistinctLinks(session.links)
    && (op.Answer? ==> op.kind != DATA)
    && (op.Meanwhile? ==>
          && S.DistinctLinks(op.links)
          && forall l: nat :: S.CounterOf(session, l) <= S.CounterOf(session.(links := op.links), l))
  }

  ghost predicate Steady(s: S.Server, session: S.Session, ops: seq<Sending>)
    decreases |ops|
  {
    if ops == [] then S.DistinctLinks(session.links)
    else SteadyOne(session, ops[0]) && Steady(s, SendOne(s, session, ops[0]).0, ops[1..])
  }

  ghost predicate Narrow(session: S.Session) {
    forall l: nat :: S.CounterOf(session, l) < MASK64
  }

  // ----- its counters only rise

  ghost predicate Spent(session: S.Session, session': S.Session, peer: S.PeerLink) {
    && S.CounterOf(session, peer.linkId) == peer.counter
    && forall l: nat :: S.CounterOf(session', l) == S.CounterOf(session, l) + if l == peer.linkId then 1 else 0
  }

  lemma {:induction false} SameFind(links: seq<S.PeerLink>, links': seq<S.PeerLink>, linkId: nat)
    requires |links| == |links'| && forall i :: 0 <= i < |links| ==> links[i].linkId == links'[i].linkId
    ensures S.Find(links, linkId) == S.Find(links', linkId)
    decreases |links|
  {
    if links != [] && links[0].linkId != linkId { SameFind(links[1..], links'[1..], linkId); }
  }

  lemma {:induction false} OtherCounter(session: S.Session, session': S.Session, i: nat, l: nat)
    requires |session'.links| == |session.links| && i < |session.links| && session.links[i].linkId != l
    requires forall j :: 0 <= j < |session.links| ==>
               && session'.links[j].linkId == session.links[j].linkId
               && (j != i ==> session'.links[j] == session.links[j])
    ensures S.CounterOf(session', l) == S.CounterOf(session, l)
  {
    SameFind(session.links, session'.links, l);
  }

  /** One datagram to link i spends that link's next counter and no other. */
  lemma SendToSpends(s: S.Server, session: S.Session, i: nat, kind: FrameType, seqNo: nat, payload: Bytes)
    requires S.DistinctLinks(session.links) && i < |session.links|
    ensures var session' := S.SendTo(s, session, i, kind, seqNo, payload).0;
            S.DistinctLinks(session'.links) && Spent(session, session', session.links[i])
  {
    hide EncodeFrame;
    var session' := S.SendTo(s, session, i, kind, seqNo, payload).0;
    var peer := session.links[i];
    S.FindDistinct(session.links, i);
    S.FindDistinct(session'.links, i);
    forall l: nat | l != peer.linkId ensures S.CounterOf(session', l) == S.CounterOf(session, l) {
      OtherCounter(session, session', i, l);
    }
  }

  lemma SpentRises(session: S.Session, session': S.Session, peer: S.PeerLink, ds: seq<Bytes>)
    requires Spent(session, session', peer) && |ds| <= 1
    requires ds != [] ==> LinkOf(ds[0]) == peer.linkId < MASK32 && CounterIn(ds[0]) == peer.counter + 1
    ensures Rising(Counts(session), Counts(session'), ds)
  {
    hide LinkOf, CounterIn, S.CounterOf;
    forall l: int ensures Counts(session)(l) <= Counts(session')(l) { }
    assert Counts(session')(peer.linkId) == Counts(session)(peer.linkId) + 1 == peer.counter + 1;
  }

  lemma SendToRises(s: S.Server, session: S.Session, i: nat, kind: FrameType, seqNo: nat, payload: Bytes)
    requires S.DistinctLinks(session.links) && i < |session.links|
    requires Narrow(S.SendTo(s, session, i, kind, seqNo, payload).0)
    ensures var (session', d) := S.SendTo(s, session, i, kind, seqNo, payload);
            S.DistinctLinks(session'.links) && Rising(Counts(session), Counts(session'), Datagrams(d))
  {
    SendToSpends(s, session, i, kind, seqNo, payload);
    hide EncodeFrame, LinkOf, CounterIn, S.CounterOf, S.DistinctLinks, Rising, Counts;
    var (session', d) := S.SendTo(s, session, i, kind, seqNo, payload);
    var peer := session.links[i];
    assert S.CounterOf(session', peer.linkId) == peer.counter + 1;
    if d.Some? { EncodedHeader(s.sealer, kind, session.sessionId, peer.linkId, peer.counter + 1, seqNo, payload); }
    SpentRises(session, session', peer, Datagrams(d));
  }

  lemma SameCounts(session: S.Session, stamped: S.Session)
    requires stamped.links == session.links
    ensures forall high, ds :: Rising(Counts(stamped), high, ds) ==> Rising(Counts(session), high, ds)
  {
    assert forall l :: Counts(stamped)(l) == Counts(session)(l);
  }

  lemma NothingRises(session: S.Session)
    ensures Rising(Counts(session), Counts(session), [])
  {
    assert forall l :: Counts(session)(l) <= Counts(session)(l);
  }

  lemma LinksRise(session: S.Session, session': S.Session)
    requires forall l: nat :: S.CounterOf(session, l) <= S.CounterOf(session', l)
    ensures Rising(Counts(session), Counts(session'), [])
  {
    hide S.CounterOf;
    forall l ensures Counts(session)(l) <= Counts(session')(l) { }
  }

  lemma {:induction false} SendOneRises(s: S.Server, session: S.Session, op: Sending)
    requires SteadyOne(session, op) && Narrow(SendOne(s, session, op).0)
    ensures var (session', ds) := SendOne(s, session, op); Rising(Counts(session), Counts(session'), ds)
  {
    hide S.SendTo, S.ReturnLink, S.Living, S.Find, Rising, EncodeFrame;
    NothingRises(session);
    match op
    case Answer(link, kind) => if link < |session.links| { SendToRises(s, session, link, kind, 0, []); }
    case Meanwhile(links) => LinksRise(session, session.(links := links));
    case Hand(packet, now) =>
      if S.ReturnLink(session, now) != None {
        S.ReturnLinkFound(session, now);
        var i := S.Find(session.links, S.ReturnLink(session, now).value.linkId).value;
        var stamped := session.(cursor := session.cursor + 1, seqNo := session.seqNo + 1);
        SendToRises(s, stamped, i, DATA, stamped.seqNo, packet);
        SameCounts(session, stamped);
      }
  }

  lemma NarrowBefore(session: S.Session, session': S.Session, ds: seq<Bytes>)
    requires Rising(Counts(session), Counts(session'), ds) && Narrow(session')
    ensures Narrow(session)
  {
    hide S.CounterOf;
    forall l: nat ensures S.CounterOf(session, l) < MASK64 { assert Counts(session)(l) <= Counts(session')(l); }
  }

  /** Over a run of sends no link of the session ever reuses a counter. */
  lemma {:induction false} RunRises(s: S.Server, session: S.Session, ops: seq<Sending>)
    requires Steady(s, session, ops) && Narrow(SendRun(s, session, ops).0)
    ensures var (session', ds) := SendRun(s, session, ops); Rising(Counts(session), Counts(session'), ds)
    decreases |ops|
  {
    hide SteadyOne, SendOne, Rising, Counts, Narrow;
    if ops == [] {
      NothingRises(session);
    } else {
      var (session1, ds) := SendOne(s, session, ops[0]);
      var (session2, more) := SendRun(s, session1, ops[1..]);
      RunRises(s, session1, ops[1..]);
      NarrowBefore(session1, session2, more);
      SendOneRises(s, session, ops[0]);
      RisingAppend(Counts(session), Counts(session1), Counts(session2), ds, more);
    }
  }

  lemma NarrowCounts(session: S.Session)
    requires Narrow(session)
    ensures forall l :: Counts(session)(l) < MASK64
  {
  }

  /** No two datagrams of a run share a nonce. */
  lemma {:induction false} NoncesNeverRepeat(s: S.Server, session: S.Session, ops: seq<Sending>)
    requires Steady(s, session, ops) && Narrow(SendRun(s, session, ops).0)
    ensures var ds := SendRun(s, session, ops).1;
            forall i, j :: 0 <= i < j < |ds| ==> NonceOf(ds[i]) != NonceOf(ds[j])
  {
    RunRises(s, session, ops);
    hide SendRun, NonceOf;
    var (session', ds) := SendRun(s, session, ops);
    NarrowCounts(session');
    forall i, j | 0 <= i < j < |ds| ensures NonceOf(ds[i]) != NonceOf(ds[j]) {
      RisingNonces(Counts(session), Counts(session'), ds, i, j);
    }
  }

  // ----- and every datagram carries what its number names

  lemma OneCarries(s: S.Server, session: S.Session, op: Sending, before: seq<Bytes>)
    requires session.sessionId < MASK32 && session.seqNo == |before| && (op.Answer? ==> op.kind != DATA)
    requires |before + NumberedOne(session, op)| < MASK64
    ensures var now := NumberedOne(session, op);
            var (session', ds) := SendOne(s, session, op);
            && (forall d :: d in ds ==> T.Carries(s.sealer, session.sessionId, d, before + now))
            && session'.sessionId == session.sessionId && session'.seqNo == |before + now|
  {
    hide T.Carries, S.SendTo, S.Return, S.ReturnLink;
    match op
    case Hand(packet, now) =>
      if S.ReturnLink(session, now) != None {
        E.ReturnSends(s, session, packet, now, before + [packet]);
        var d := S.Return(s, session, packet, now).1;
        assert forall b :: b in Datagrams(d) ==> T.Carries(s.sealer, session.sessionId, b, before + [packet]);
      } else {
        assert before + NumberedOne(session, op) == before;
      }
    case Answer(link, kind) =>
      assert before + NumberedOne(session, op) == before;
      if link < |session.links| {
        E.ReplyCarries(s, session, link, kind, before);
        var d := S.SendTo(s, session, link, kind, 0, []).1;
        assert forall b :: b in Datagrams(d) ==> T.Carries(s.sealer, session.sessionId, b, before);
      }
    case Meanwhile(links) => assert before + NumberedOne(session, op) == before;
  }

  lemma {:induction false} RunCarries(s: S.Server, session: S.Session, ops: seq<Sending>, before: seq<Bytes>)
    requires session.sessionId < MASK32 && session.seqNo == |before| && Steady(s, session, ops)
    requires |before + Numbered(s, session, ops)| < MASK64
    ensures var (session', ds) := SendRun(s, session, ops);
            forall d :: d in ds ==> T.Carries(s.sealer, session.sessionId, d, before + Numbered(s, session, ops))
    decreases |ops|
  {
    hide T.Carries, SendOne, NumberedOne;
    if ops != [] {
      var (session1, ds) := SendOne(s, session, ops[0]);
      var now, after := NumberedOne(session, ops[0]), Numbered(s, session1, ops[1..]);
      assert before + Numbered(s, session, ops) == before + now + after;
      OneCarries(s, session, ops[0], before);
      RunCarries(s, session1, ops[1..], before + now);
      forall d | d in ds ensures T.Carries(s.sealer, session.sessionId, d, before + now + after) {
        T.CarriesLonger(s.sealer, session.sessionId, d, before + now, after);
      }
    }
  }

  // ----- what reaches the client

  datatype Step = Reach(link: int, data: Bytes, now: real) | Ticker(now: real)

  function HearOne(c: T.Client, step: Step): T.Client {
    match step
    case Reach(link, data, now) => if link in c.sockets then T.Receive(c, link, data, now) else c
    case Ticker(now) => T.TickReorder(c, now)
  }

  function Hear(c: T.Client, steps: seq<Step>): T.Client
    decreases |steps|
  {
    if steps == [] then c else Hear(HearOne(c, steps[0]), steps[1..])
  }

  lemma {:induction false} HearLast(c: T.Client, steps: seq<Step>, step: Step)
    ensures Hear(c, steps + [step]) == HearOne(Hear(c, steps), step)
    decreases |steps|
  {
    hide HearOne;
    if steps == [] {
      assert ([] + [step])[1..] == [];
    } else {
      assert (steps + [step])[1..] == steps[1..] + [step];
      HearLast(HearOne(c, steps[0]), steps[1..], step);
    }
  }

  /** An authentic datagram at a bound socket. */
  predicate Genuine(sealer: Sealer, links: set<int>, step: Step) {
    step.Reach? && step.link in links && DecodeFrame(sealer, step.data).Some?
  }

  function FrameIn(sealer: Sealer, links: set<int>, step: Step): Frame
    requires Genuine(sealer, links, step)
  {
    DecodeFrame(sealer, step.data).value
  }

  function ItemIn(sealer: Sealer, links: set<int>, step: Step): Item {
    if step.Ticker? then Pass(step.now)
    else if Genuine(sealer, links, step) then
      var f := FrameIn(sealer, links, step);
      Heard(step.link, f.counter, f.seqNo, if f.kind == DATA then f.payload else [], step.now)
    else Noise
  }

  function Items(sealer: Sealer, links: set<int>, steps: seq<Step>): seq<Item> {
    seq(|steps|, k requires 0 <= k < |steps| => ItemIn(sealer, links, steps[k]))
  }

  /** The receive side of the client. */
  function View(c: T.Client): Receiver {
    Receiver((l: int) => if l in c.sockets then c.sockets[l].replay else NEW_WINDOW, c.reorder, c.written)
  }

  ghost predicate SameSockets(c: T.Client, c': T.Client) {
    c'.sealer == c.sealer && c'.sockets.Keys == c.sockets.Keys
  }

  lemma DecodedLong(sealer: Sealer, data: Bytes)
    ensures DecodeFrame(sealer, data).Some? ==> |data| >= HEADER_LEN
  {
  }

  /** Whatever reaches the client, its receive side does with it what a receiver must. */
  lemma HearTakes(c: T.Client, step: Step)
    ensures SameSockets(c, HearOne(c, step))
    ensures Takes(View(c), ItemIn(c.sealer, c.sockets.Keys, step), View(HearOne(c, step)))
  {
    hide DecodeFrame, Push, Tick;
    if step.Reach? { DecodedLong(c.sealer, step.data); }
  }

  lemma {:induction false} HearSame(c: T.Client, steps: seq<Step>, k: nat)
    requires k <= |steps|
    ensures SameSockets(c, Hear(c, steps[..k]))
  {
    hide HearOne;
    if k > 0 {
      HearSame(c, steps, k - 1);
      assert steps[..k] == steps[..k - 1] + [steps[k - 1]];
      HearLast(c, steps[..k - 1], steps[k - 1]);
      HearTakes(Hear(c, steps[..k - 1]), steps[k - 1]);
    } else {
      assert steps[..0] == [];
    }
  }

  function Views(c: T.Client, steps: seq<Step>): seq<Receiver> {
    seq(|steps| + 1, k requires 0 <= k <= |steps| => View(Hear(c, steps[..k])))
  }

  lemma {:induction false} ClientTraces(c: T.Client, steps: seq<Step>)
    ensures Trace(Views(c, steps), Items(c.sealer, c.sockets.Keys, steps))
  {
    hide Hear, HearOne, View, Takes, ItemIn;
    var rs, items := Views(c, steps), Items(c.sealer, c.sockets.Keys, steps);
    forall k | 0 <= k < |items| ensures Takes(rs[k], items[k], rs[k + 1]) {
      HearSame(c, steps, k);
      assert steps[..k + 1] == steps[..k] + [steps[k]];
      HearLast(c, steps[..k], steps[k]);
      HearTakes(Hear(c, steps[..k]), steps[k]);
    }
  }

  /**
   Only datagrams of this run reach the client, each at the socket of its link, among others that do not authenticate.
   */
  ghost predicate FromSession(sealer: Sealer, links: set<int>, ds: seq<Bytes>, steps: seq<Step>) {
    forall i | 0 <= i < |steps| && Genuine(sealer, links, steps[i]) ::
      steps[i].data in ds && FrameIn(sealer, links, steps[i]).linkId == steps[i].link
  }

  lemma {:induction false} SessionUnrepeated(s: S.Server, session: S.Session, ops: seq<Sending>, links: set<int>,
                                             steps: seq<Step>)
    requires Steady(s, session, ops) && Narrow(SendRun(s, session, ops).0)
    requires FromSession(s.sealer, links, SendRun(s, session, ops).1, steps)
    ensures Unrepeated(Items(s.sealer, links, steps))
  {
    RunRises(s, session, ops);
    hide SendRun, LinkOf, CounterIn, DecodeFrame, Rising, Counts;
    var (session', ds) := SendRun(s, session, ops);
    var items := Items(s.sealer, links, steps);
    forall i | 0 <= i < |items| && items[i].Heard? ensures items[i].counter != 0 {
      HeaderIn(s.sealer, steps[i].data);
      RisingUnique(Counts(session), Counts(session'), ds, steps[i].data, steps[i].data);
    }
    forall i, j | 0 <= i < j < |items| && items[i].Heard? && items[j].Heard?
                  && items[i].link == items[j].link && items[i].counter == items[j].counter
      ensures items[i].no == items[j].no && items[i].payload == items[j].payload
    {
      HeaderIn(s.sealer, steps[i].data);
      HeaderIn(s.sealer, steps[j].data);
      RisingUnique(Counts(session), Counts(session'), ds, steps[i].data, steps[j].data);
    }
  }

  lemma CarriedName(sealer: Sealer, sessionId: nat, links: set<int>, step: Step, sent: seq<Bytes>)
    requires Genuine(sealer, links, step) ==> T.Carries(sealer, sessionId, step.data, sent)
    ensures var it := ItemIn(sealer, links, step);
            it.Heard? && it.payload != [] ==> 1 <= it.no <= |sent| && it.payload == sent[it.no - 1]
  {
    hide DecodeFrame;
  }

  lemma {:induction false} SessionNames(s: S.Server, session: S.Session, ops: seq<Sending>, links: set<int>,
                                        steps: seq<Step>)
    requires session.sessionId < MASK32 && session.seqNo == 0 && Steady(s, session, ops)
    requires |Numbered(s, session, ops)| < MASK64
    requires FromSession(s.sealer, links, SendRun(s, session, ops).1, steps)
    ensures Names(Items(s.sealer, links, steps), Numbered(s, session, ops))
  {
    hide SendRun, DecodeFrame, Numbered, T.Carries, ItemIn, Steady;
    var sent := Numbered(s, session, ops);
    assert [] + sent == sent;
    RunCarries(s, session, ops, []);
    var items := Items(s.sealer, links, steps);
    forall i | 0 <= i < |items| && items[i].Heard? && items[i].payload != []
      ensures 1 <= items[i].no <= |sent| && items[i].payload == sent[items[i].no - 1]
    {
      CarriedName(s.sealer, session.sessionId, links, steps[i], sent);
    }
  }

  /** A client that has heard nothing yet. */
  ghost predicate NewClient(c: T.Client, reorderMs: real, capacity: int) {
    && (forall l :: l in c.sockets ==> c.sockets[l].replay == NEW_WINDOW)
    && c.reorder == NewBuffer(reorderMs, capacity) && c.written == []
  }

  lemma {:induction false} HearNothing(c: T.Client)
    ensures Hear(c, []) == c
  {
  }

  /**
   Delivery on the way back.  A session hands out packets and answers over whatever links it has, while links join,
   move, close and time out around it, and a new client gets its datagrams at the sockets of their links, in any order
   and with any repeats.  Under the conditions of `Benign`, once its ticker has run after priming the client has written
   exactly the packets the session numbered, in order, and skipped nothing.
   */
  lemma {:induction false} Returned(s: S.Server, session: S.Session, ops: seq<Sending>, c: T.Client, steps: seq<Step>,
                                    reorderMs: real, capacity: int)
    requires session.sessionId < MASK32 && session.seqNo == 0 && s.sealer == c.sealer
    requires Steady(s, session, ops) && Narrow(SendRun(s, session, ops).0) && |Numbered(s, session, ops)| < MASK64
    requires NewClient(c, reorderMs, capacity)
    requires FromSession(c.sealer, c.sockets.Keys, SendRun(s, session, ops).1, steps)
    requires var items := Items(c.sealer, c.sockets.Keys, steps);
             Benign(items, Numbered(s, session, ops), Seconds(reorderMs), Slots(capacity))
    ensures var c' := Hear(c, steps);
            && Payloads(c'.written) == Numbered(s, session, ops) && c'.reorder.held == []
            && c'.reorder.stats.gapSkips == 0 && c'.reorder.stats.overflowFlushes == 0
  {
    var rs, items := Views(c, steps), Items(c.sealer, c.sockets.Keys, steps);
    ClientTraces(c, steps);
    SessionNames(s, session, ops, c.sockets.Keys, steps);
    SessionUnrepeated(s, session, ops, c.sockets.Keys, steps);
    hide SendRun, Narrow, Steady, FromSession, Hear, Numbered, Trace, Unrepeated, Names, Benign, Items;
    assert steps[..0] == [];
    HearNothing(c);
    SentWhole(rs, items, reorderMs, capacity, Numbered(s, session, ops));
    assert |items| == |steps| && steps[..|steps|] == steps;
  }
}
