/**
 The bonded tunnel as one distributed protocol, one direction at a time.  The network may lose, repeat, delay and
 reorder datagrams over any number of links, and carry foreign ones that belong to nobody or to other sessions.
 */
module EndToEnd {
  import opened Bytes
  import opened Crypto
  import opened Protocol
  import opened Resequencer
  import opened ReorderRuns
  import T = Tunnel
  import S = Concentrator

  // ----- one receive buffer fed from one numbered stream

  /** Every entry is the packet of the stream its number names. */
  ghost predicate FromStream(es: seq<Entry>, stream: seq<Bytes>) {
    forall i :: 0 <= i < |es| ==> 1 <= es[i].no <= |stream| && es[i].payload == stream[es[i].no - 1]
  }

  /** What a receiver with this buffer and this output log has done right so far. */
  ghost predicate Faithful(b: Buffer, released: seq<Entry>, stream: seq<Bytes>) {
    && Valid(b) && |b.held| <= b.capacity
    && Ascending(released)
    && (forall i :: 0 <= i < |released| ==> released[i].no < b.next)
    && (b.priming || !b.started ==> released == [])
    && FromStream(b.held, stream) && FromStream(released, stream)
  }

  lemma NewFaithful(timeoutMs: real, capacity: int, stream: seq<Bytes>)
    ensures Faithful(NewBuffer(timeoutMs, capacity), [], stream)
  {
  }

  lemma LongerFaithful(b: Buffer, released: seq<Entry>, stream: seq<Bytes>, more: seq<Bytes>)
    requires Faithful(b, released, stream)
    ensures Faithful(b, released, stream + more)
  {
    hide Valid;
  }

  lemma ReleaseFromStream(q: Buffer, b: Buffer, out: seq<Entry>, released: seq<Entry>, stream: seq<Bytes>)
    requires Releases(q, b, out) && FromStream(q.held, stream) && FromStream(released, stream)
    ensures FromStream(b.held, stream) && FromStream(released + out, stream)
  {
    forall i | 0 <= i < |b.held|
      ensures 1 <= b.held[i].no <= |stream| && b.held[i].payload == stream[b.held[i].no - 1]
    {
      assert b.held[i] == q.held[|out| + i];
    }
    forall i | 0 <= i < |out| ensures 1 <= out[i].no <= |stream| && out[i].payload == stream[out[i].no - 1] {
      assert out[i] == q.held[i];
    }
  }

  lemma InsertFromStream(held: seq<Entry>, e: Entry, k: nat, stream: seq<Bytes>)
    requires FromStream(held, stream) && FromStream([e], stream) && k <= |held|
    ensures FromStream(held[..k] + [e] + held[k..], stream)
  {
    assert [e][0] == e;
  }

  lemma QueueFromStream(b: Buffer, no: int, payload: Bytes, now: real, stream: seq<Bytes>)
    requires Valid(b) && FromStream(b.held, stream) && 1 <= no <= |stream| && payload == stream[no - 1]
    ensures FromStream(Queued(b, no, payload, now).held, stream)
  {
    PrimeValid(b, no, now);
    var b1 := Prime(b, no, now);
    if Judge(b1, no) == Accepted {
      var e := Entry(no, payload, now + b1.timeout);
      InsertAtSlot(b1.held, e);
      InsertFromStream(b1.held, e, Slot(b1.held, no), stream);
      hide FromStream, Insert, Slot, Valid, Prime;
    }
  }

  lemma PushFaithful(b: Buffer, released: seq<Entry>, no: int, payload: Bytes, now: real, stream: seq<Bytes>)
    requires Faithful(b, released, stream) && 1 <= no <= |stream| && payload == stream[no - 1]
    ensures var (b', out) := Push(b, no, payload, now); Faithful(b', released + out, stream)
  {
    var h := History(b, 0, [], released, 0, false);
    ObserveInOrder(h, Arrive(no, payload, now));
    PushReleases(b, no, payload, now);
    QueueFromStream(b, no, payload, now, stream);
    var q := Queued(b, no, payload, now);
    assert Observe(h, Arrive(no, payload, now)).released == released + Push(b, no, payload, now).1;
    hide Push, Queued;
    var (b', out) := Push(b, no, payload, now);
    ReleaseFromStream(q, b', out, released, stream);
  }

  lemma TickFaithful(b: Buffer, released: seq<Entry>, now: real, stream: seq<Bytes>)
    requires Faithful(b, released, stream)
    ensures var (b', out) := Tick(b, now); Faithful(b', released + out, stream)
  {
    var h := History(b, 0, [], released, 0, false);
    ObserveInOrder(h, Timer(now));
    TickReleases(b, now);
    hide Tick;
    var (b', out) := Tick(b, now);
    ReleaseFromStream(b, b', out, released, stream);
  }

  ghost predicate Picked(out: seq<Bytes>, stream: seq<Bytes>, at: seq<nat>) {
    && |at| == |out|
    && (forall i, j :: 0 <= i < j < |at| ==> at[i] < at[j])
    && (forall i :: 0 <= i < |at| ==> at[i] < |stream| && out[i] == stream[at[i]])
  }

  /** `out` is a selection of `stream` in order, each position at most once. */
  ghost predicate Selection(out: seq<Bytes>, stream: seq<Bytes>) {
    exists at: seq<nat> :: Picked(out, stream, at)
  }

  lemma FaithfulSelects(b: Buffer, released: seq<Entry>, stream: seq<Bytes>)
    requires Faithful(b, released, stream)
    ensures Selection(Payloads(released), stream)
  {
    var at := seq<nat>(|released|, i requires 0 <= i < |released| => released[i].no - 1);
    assert Picked(Payloads(released), stream, at);
  }

  // ----- upstream: client to server

  /** `sent` is every packet the client has numbered, `net` every datagram it has put on any link. */
  datatype Up = Up(client: T.Client, sent: seq<Bytes>, net: set<Bytes>, server: S.Server)

  datatype UpStep =
    | Send(chosen: seq<int>, packet: Bytes)
    | Control(linkId: int, kind: FrameType)
    | Bind(linkId: int)
    | Arrival(data: Bytes, addr: S.Address, now: real)
    | Ticker(now: real)
    | Reaper(now: real)
    | Return(ranked: seq<nat>, packet: Bytes, now: real)

  function Elements(ds: seq<Bytes>): set<Bytes> {
    set d | d in ds
  }

  /** Not one of this session's datagrams: it does not authenticate, or it names another session. */
  predicate Foreign(sealer: Sealer, sessionId: nat, d: Bytes) {
    match DecodeFrame(sealer, d)
    case None => true
    case Some(f) => f.sessionId != sessionId
  }

  predicate Possible(w: Up, step: UpStep) {
    match step
    case Arrival(data, _, _) => data in w.net || Foreign(w.client.sealer, w.client.sessionId, data)
    case Control(_, kind) => kind != DATA
    case Return(ranked, _, _) => forall i :: 0 <= i < |ranked| ==> ranked[i] in w.server.sessions
    case _ => true
  }

  function Next(w: Up, step: UpStep): Up
    requires Possible(w, step)
  {
    match step
    case Send(chosen, packet) =>
      var (c, ds) := T.SendPacket(w.client, chosen, packet);
      w.(client := c, sent := if chosen == [] then w.sent else w.sent + [packet], net := w.net + Elements(ds))
    case Control(linkId, kind) =>
      var (c, ds) := T.SendControl(w.client, linkId, kind);
      w.(client := c, net := w.net + Elements(ds))
    case Bind(linkId) => w.(client := T.Bind(w.client, linkId))
    case Arrival(data, addr, now) => w.(server := S.Receive(w.server, data, addr, now).0)
    case Ticker(now) => w.(server := S.TickAll(w.server, now))
    case Reaper(now) => w.(server := S.Reap(w.server, now))
    case Return(ranked, packet, now) => w.(server := S.Dispatch(w.server, ranked, packet, now).0)
  }

  ghost predicate SessionFaithful(s: S.Server, id: nat, stream: seq<Bytes>) {
    id in s.sessions ==> Faithful(s.sessions[id].reorder, s.sessions[id].released, stream)
  }

  ghost predicate UpInvariant(w: Up) {
    && w.client.sessionId < MASK32 && w.client.seqNo == |w.sent| && w.server.sealer == w.client.sealer
    && (forall d :: d in w.net ==> T.Carries(w.client.sealer, w.client.sessionId, d, w.sent))
    && SessionFaithful(w.server, w.client.sessionId, w.sent)
    && S.Keyed(w.server)
  }

  lemma SendKeeps(w: Up, chosen: seq<int>, packet: Bytes)
    requires UpInvariant(w) && |w.sent| + 1 < MASK64
    ensures UpInvariant(Next(w, Send(chosen, packet)))
  {
    if chosen != [] {
      var stream := w.sent + [packet];
      T.CopiesCarry(w.client.(seqNo := w.client.seqNo + 1), chosen, stream);
      hide T.SendCopies, T.Carries, Faithful;
      forall d | d in w.net ensures T.Carries(w.client.sealer, w.client.sessionId, d, stream) {
        T.CarriesLonger(w.client.sealer, w.client.sessionId, d, w.sent, [packet]);
      }
      var id := w.client.sessionId;
      if id in w.server.sessions {
        LongerFaithful(w.server.sessions[id].reorder, w.server.sessions[id].released, w.sent, [packet]);
      }
    }
  }

  lemma ControlKeeps(w: Up, linkId: int, kind: FrameType)
    requires UpInvariant(w) && kind != DATA
    ensures UpInvariant(Next(w, Control(linkId, kind)))
  {
    T.ControlCarries(w.client, linkId, kind, w.sent);
    hide T.SendControl, T.Carries, Faithful;
  }

  /** Delivering a frame touches only the session it names, and feeds its buffer only data frames. */
  lemma DeliverKeeps(s: S.Server, session: S.Session, i: nat, f: Frame, now: real, stream: seq<Bytes>)
    requires i < |session.links| && session.sessionId == f.sessionId
    requires Faithful(session.reorder, session.released, stream)
    requires f.kind == DATA ==> 1 <= f.seqNo <= |stream| && f.payload == stream[f.seqNo - 1]
    ensures SessionFaithful(S.Deliver(s, session, i, f, now).0, f.sessionId, stream)
  {
    if f.kind == DATA { PushFaithful(session.reorder, session.released, f.seqNo, f.payload, now, stream); }
    hide Faithful, Push, EncodeFrame;
  }

  lemma DeliverElsewhere(s: S.Server, session: S.Session, i: nat, f: Frame, now: real, id: nat, stream: seq<Bytes>)
    requires i < |session.links| && session.sessionId == f.sessionId != id
    requires SessionFaithful(s, id, stream)
    ensures SessionFaithful(S.Deliver(s, session, i, f, now).0, id, stream)
  {
    hide Faithful, Push, EncodeFrame;
  }

  lemma SessionForFaithful(s: S.Server, id: nat, now: real, stream: seq<Bytes>)
    requires SessionFaithful(s, id, stream)
    ensures Faithful(S.SessionFor(s, id, now).reorder, S.SessionFor(s, id, now).released, stream)
  {
    if id !in s.sessions { NewFaithful(s.reorderMs, S.REORDER_CAPACITY, stream); }
    hide Faithful, NewBuffer;
  }

  lemma DecodedKeeps(s: S.Server, f: Frame, addr: S.Address, now: real, id: nat, stream: seq<Bytes>)
    requires SessionFaithful(s, id, stream)
    requires f.sessionId == id && f.kind == DATA ==> 1 <= f.seqNo <= |stream| && f.payload == stream[f.seqNo - 1]
    ensures SessionFaithful(S.Process(s, f, addr, now).0, id, stream)
  {
    hide Faithful, S.Joined, S.Deliver, S.SessionFor;
    var session := S.SessionFor(s, f.sessionId, now).(sessionId := f.sessionId);
    var (links, i) := S.Joined(session.links, f.linkId, addr, now);
    var peer := links[i];
    var seen := peer.(replay := peer.replay.Record(f.counter), lastSeen := now, rx := peer.rx + 1);
    var heard := session.(links := links[i := seen]);
    if f.sessionId == id {
      SessionForFaithful(s, id, now, stream);
      DeliverKeeps(s, heard, i, f, now, stream);
    } else {
      DeliverElsewhere(s, heard, i, f, now, id, stream);
    }
  }

  lemma ProcessSealer(s: S.Server, f: Frame, addr: S.Address, now: real)
    ensures S.Process(s, f, addr, now).0.sealer == s.sealer
  {
    hide Push, EncodeFrame, S.Joined, S.SendTo;
  }

  lemma ArrivalKeeps(w: Up, data: Bytes, addr: S.Address, now: real)
    requires UpInvariant(w) && Possible(w, Arrival(data, addr, now))
    ensures UpInvariant(Next(w, Arrival(data, addr, now)))
  {
    var id := w.client.sessionId;
    hide DecodeFrame, Faithful;
    if |data| <= MAX_DATAGRAM && DecodeFrame(w.server.sealer, data).Some? {
      var f := DecodeFrame(w.server.sealer, data).value;
      assert f.sessionId == id ==> data in w.net;
      assert data in w.net ==> T.Carries(w.client.sealer, id, data, w.sent);
      DecodedKeeps(w.server, f, addr, now, id, w.sent);
      ProcessSealer(w.server, f, addr, now);
      S.HandleKeyed(w.server, data, addr, now);
      hide S.Process, S.Keyed;
    }
  }

  lemma TickerKeeps(w: Up, now: real)
    requires UpInvariant(w)
    ensures UpInvariant(Next(w, Ticker(now)))
  {
    var id := w.client.sessionId;
    if id in w.server.sessions {
      TickFaithful(w.server.sessions[id].reorder, w.server.sessions[id].released, now, w.sent);
    }
    hide Faithful, Tick, T.Carries;
  }

  lemma ReaperKeeps(w: Up, now: real)
    requires UpInvariant(w)
    ensures UpInvariant(Next(w, Reaper(now)))
  {
    S.ReapKeyed(w.server, now);
    hide Faithful, T.Carries, S.Living, S.Keyed;
  }

  /** Handing out return traffic changes counters, not what the session has received. */
  lemma ReturnsApart(s: S.Server, session: S.Session, packet: Bytes, now: real)
    requires S.ReturnLink(session, now).Some? && S.DistinctLinks(session.links)
    ensures var session' := S.Return(s, session, packet, now).0;
            && session'.reorder == session.reorder && session'.released == session.released
            && session'.sessionId == session.sessionId && session'.links != [] && S.DistinctLinks(session'.links)
            && session'.seqNo == session.seqNo + 1
  {
    hide EncodeFrame, S.Living;
    S.ReturnLinkFound(session, now);
  }

  lemma {:induction false} DispatchKeeps(s: S.Server, ranked: seq<nat>, packet: Bytes, now: real, id: nat,
                                         stream: seq<Bytes>)
    requires SessionFaithful(s, id, stream) && S.Keyed(s) && forall i :: 0 <= i < |ranked| ==> ranked[i] in s.sessions
    ensures var s' := S.Dispatch(s, ranked, packet, now).0;
            SessionFaithful(s', id, stream) && S.Keyed(s') && s'.sealer == s.sealer
    decreases |ranked|
  {
    hide Faithful, EncodeFrame, S.Return, S.ReturnLink, S.DistinctLinks;
    if ranked != [] {
      var session := s.sessions[ranked[0]];
      if S.ReturnLink(session, now) == None {
        DispatchKeeps(s, ranked[1..], packet, now, id, stream);
      } else {
        ReturnsApart(s, session, packet, now);
      }
    }
  }

  lemma NextKeeps(w: Up, step: UpStep)
    requires UpInvariant(w) && Possible(w, step) && (step.Send? ==> |w.sent| + 1 < MASK64)
    ensures UpInvariant(Next(w, step))
  {
    match step
    case Send(chosen, packet) => SendKeeps(w, chosen, packet);
    case Control(linkId, kind) => ControlKeeps(w, linkId, kind);
    case Bind(linkId) => hide Faithful, T.Carries, S.Keyed;
    case Arrival(data, addr, now) => ArrivalKeeps(w, data, addr, now);
    case Ticker(now) => TickerKeeps(w, now);
    case Reaper(now) => ReaperKeeps(w, now);
    case Return(ranked, packet, now) =>
      DispatchKeeps(w.server, ranked, packet, now, w.client.sessionId, w.sent);
      hide SessionFaithful, T.Carries, S.Keyed, S.Dispatch;
  }

  /** Every step of the run is possible when it is taken, and the 8-octet numbers do not run out. */
  ghost predicate Runs(w: Up, steps: seq<UpStep>)
    decreases |steps|
  {
    steps == [] ||
    (Possible(w, steps[0]) && (steps[0].Send? ==> |w.sent| + 1 < MASK64) && Runs(Next(w, steps[0]), steps[1..]))
  }

  ghost function After(w: Up, steps: seq<UpStep>): Up
    requires Runs(w, steps)
    decreases |steps|
  {
    if steps == [] then w else After(Next(w, steps[0]), steps[1..])
  }

  lemma {:induction false} CopiesSession(c: T.Client, chosen: seq<int>, seqNo: nat, packet: Bytes)
    ensures T.SendCopies(c, chosen, seqNo, packet).0.sessionId == c.sessionId
    decreases |chosen|
  {
    hide EncodeFrame;
    if chosen != [] {
      CopiesSession(if chosen[0] in c.sockets then T.Advance(c, chosen[0]) else c, chosen[1..], seqNo, packet);
    }
  }

  lemma NextSession(w: Up, step: UpStep)
    requires Possible(w, step)
    ensures Next(w, step).client.sessionId == w.client.sessionId
  {
    hide EncodeFrame, S.Dispatch, S.Receive;
    match step
    case Send(chosen, packet) =>
      if chosen != [] { CopiesSession(w.client.(seqNo := w.client.seqNo + 1), chosen, w.client.seqNo + 1, packet); }
    case Control(linkId, kind) =>
    case Bind(linkId) =>
    case Arrival(data, addr, now) =>
    case Ticker(now) =>
    case Reaper(now) =>
    case Return(ranked, packet, now) =>
  }

  lemma {:induction false} RunKeeps(w: Up, steps: seq<UpStep>)
    requires UpInvariant(w) && Runs(w, steps)
    ensures UpInvariant(After(w, steps)) && After(w, steps).client.sessionId == w.client.sessionId
    decreases |steps|
  {
    if steps != [] {
      NextKeeps(w, steps[0]);
      NextSession(w, steps[0]);
      hide Next, UpInvariant, Possible;
      RunKeeps(Next(w, steps[0]), steps[1..]);
    }
  }

  /** A client that has sent nothing, and a server that knows no sessions yet. */
  ghost predicate UpStart(w: Up) {
    && w.client.sessionId < MASK32 && w.client.seqNo == 0 && w.sent == [] && w.net == {}
    && w.server.sealer == w.client.sealer && w.server.sessions == map[]
  }

  /**
   End to end, client to internet.  On every run, under any loss, repetition, delay and reordering over any
   number of links, with links joining, moving, closing and timing out, what the server's Session object has
   written to the TUN device is a selection of the client's packets in the order they were sent, none twice.
   */
  lemma {:induction false} UpstreamInOrder(w: Up, steps: seq<UpStep>)
    requires UpStart(w) && Runs(w, steps)
    ensures var w' := After(w, steps);
            var id := w.client.sessionId;
            id in w'.server.sessions ==>
              Selection(Payloads(w'.server.sessions[id].released), w'.sent) && w'.server.sessions[id].links != []
  {
    RunKeeps(w, steps);
    hide Next, Runs;
    var w' := After(w, steps);
    var id := w.client.sessionId;
    if id in w'.server.sessions {
      FaithfulSelects(w'.server.sessions[id].reorder, w'.server.sessions[id].released, w'.sent);
    }
  }

  // ----- downstream: one server Session object to the client

  /** `sent` is every packet this Session object has numbered, `net` every datagram it has sent. */
  datatype Down = Down(server: S.Server, session: S.Session, sent: seq<Bytes>, net: set<Bytes>, client: T.Client)

  datatype DownStep =
    | Hand(packet: Bytes, now: real)
    | Reply(link: nat, kind: FrameType)
    | Relink(links: seq<S.PeerLink>)
    | Reach(linkId: int, data: Bytes, now: real)
    | Rebind(linkId: int)
    | ClientTicker(now: real)

  predicate DownPossible(w: Down, step: DownStep) {
    match step
    case Hand(_, now) => S.ReturnLink(w.session, now).Some?
    case Reply(link, kind) => link < |w.session.links| && kind != DATA
    case Relink(_) => true
    case Reach(linkId, data, _) =>
      linkId in w.client.sockets && (data in w.net || DecodeFrame(w.client.sealer, data) == None)
    case Rebind(_) => true
    case ClientTicker(_) => true
  }

  function Sent(d: Option<(Bytes, S.Address)>): set<Bytes> {
    match d case None => {} case Some((b, _)) => {b}
  }

  function DownNext(w: Down, step: DownStep): Down
    requires DownPossible(w, step)
  {
    match step
    case Hand(packet, now) =>
      var (session, d) := S.Return(w.server, w.session, packet, now);
      w.(session := session, sent := w.sent + [packet], net := w.net + Sent(d))
    case Reply(link, kind) =>
      var (session, d) := S.SendTo(w.server, w.session, link, kind, 0, []);
      w.(session := session, net := w.net + Sent(d))
    case Relink(links) => w.(session := w.session.(links := links))
    case Reach(linkId, data, now) => w.(client := T.Receive(w.client, linkId, data, now))
    case Rebind(linkId) => w.(client := T.Bind(w.client, linkId))
    case ClientTicker(now) => w.(client := T.TickReorder(w.client, now))
  }

  ghost predicate DownInvariant(w: Down) {
    && w.session.sessionId < MASK32 && w.session.seqNo == |w.sent| && w.server.sealer == w.client.sealer
    && (forall d :: d in w.net ==> T.Carries(w.client.sealer, w.session.sessionId, d, w.sent))
    && Faithful(w.client.reorder, w.client.written, w.sent)
  }

  lemma DataCarries(s: S.Server, session: S.Session, link: nat, stream: seq<Bytes>)
    requires link < |session.links| && session.sessionId < MASK32 && stream != [] && |stream| < MASK64
    ensures var (session', d) := S.SendTo(s, session, link, DATA, |stream|, stream[|stream| - 1]);
            && session'.sessionId == session.sessionId && session'.seqNo == session.seqNo
            && (d.Some? ==> T.Carries(s.sealer, session.sessionId, d.value.0, stream))
  {
    hide EncodeFrame, T.Carries, T.Conveys;
    var linkId, counter := session.links[link].linkId, session.links[link].counter + 1;
    if EncodeFrame(s.sealer, DATA, session.sessionId, linkId, counter, |stream|, stream[|stream| - 1]).Ok? {
      T.CopyCarries(s.sealer, session.sessionId, linkId, counter, stream);
    }
  }

  /** What one handed-out packet puts on the wire carries that packet under the session's next number. */
  lemma ReturnSends(s: S.Server, session: S.Session, packet: Bytes, now: real, stream: seq<Bytes>)
    requires S.ReturnLink(session, now).Some? && session.sessionId < MASK32
    requires stream != [] && |stream| == session.seqNo + 1 < MASK64 && stream[session.seqNo] == packet
    ensures var (session', d) := S.Return(s, session, packet, now);
            && session'.sessionId == session.sessionId && session'.seqNo == session.seqNo + 1
            && (d.Some? ==> T.Carries(s.sealer, session.sessionId, d.value.0, stream))
  {
    hide S.ReturnLink, S.Find, T.Carries, S.Living, S.SendTo;
    S.ReturnLinkFound(session, now);
    var i := S.Find(session.links, S.ReturnLink(session, now).value.linkId).value;
    DataCarries(s, session.(cursor := session.cursor + 1, seqNo := session.seqNo + 1), i, stream);
  }

  lemma HandKeeps(w: Down, packet: Bytes, now: real)
    requires DownInvariant(w) && S.ReturnLink(w.session, now).Some? && |w.sent| + 1 < MASK64
    ensures DownInvariant(DownNext(w, Hand(packet, now)))
  {
    var stream := w.sent + [packet];
    LongerFaithful(w.client.reorder, w.client.written, w.sent, [packet]);
    hide Faithful, EncodeFrame, T.Carries;
    ReturnSends(w.server, w.session, packet, now, stream);
    forall d | d in w.net ensures T.Carries(w.client.sealer, w.session.sessionId, d, stream) {
      T.CarriesLonger(w.client.sealer, w.session.sessionId, d, w.sent, [packet]);
    }
    hide S.Return, S.ReturnLink;
  }

  lemma ReplyCarries(s: S.Server, session: S.Session, link: nat, kind: FrameType, stream: seq<Bytes>)
    requires link < |session.links| && kind != DATA && session.sessionId < MASK32
    ensures var (session', d) := S.SendTo(s, session, link, kind, 0, []);
            && session'.sessionId == session.sessionId && session'.seqNo == session.seqNo
            && (d.Some? ==> T.Carries(s.sealer, session.sessionId, d.value.0, stream))
  {
    hide EncodeFrame, DecodeFrame;
    var peer := session.links[link];
    if EncodeFrame(s.sealer, kind, session.sessionId, peer.linkId, peer.counter + 1, 0, []).Ok? {
      DecodeAfterEncode(s.sealer, kind, session.sessionId, peer.linkId, peer.counter + 1, 0, []);
      SmallMod(session.sessionId, MASK32);
    }
  }

  lemma ReplyKeeps(w: Down, link: nat, kind: FrameType)
    requires DownInvariant(w) && link < |w.session.links| && kind != DATA
    ensures DownInvariant(DownNext(w, Reply(link, kind)))
  {
    hide Faithful, EncodeFrame;
    ReplyCarries(w.server, w.session, link, kind, w.sent);
    hide T.Carries;
  }

  /** The client stays faithful whatever it gets, as long as data frames carry packets of the stream. */
  lemma ReceiveFaithful(c: T.Client, linkId: int, data: Bytes, now: real, stream: seq<Bytes>)
    requires linkId in c.sockets && Faithful(c.reorder, c.written, stream)
    requires DecodeFrame(c.sealer, data).Some? && DecodeFrame(c.sealer, data).value.kind == DATA ==>
               var f := DecodeFrame(c.sealer, data).value; 1 <= f.seqNo <= |stream| && f.payload == stream[f.seqNo - 1]
    ensures var c' := T.Receive(c, linkId, data, now);
            c'.sealer == c.sealer && Faithful(c'.reorder, c'.written, stream)
  {
    hide DecodeFrame, Faithful, Push;
    if DecodeFrame(c.sealer, data).Some? {
      var f := DecodeFrame(c.sealer, data).value;
      if f.kind == DATA { PushFaithful(c.reorder, c.written, f.seqNo, f.payload, now, stream); }
    }
  }

  lemma ReachKeeps(w: Down, linkId: int, data: Bytes, now: real)
    requires DownInvariant(w) && DownPossible(w, Reach(linkId, data, now))
    ensures DownInvariant(DownNext(w, Reach(linkId, data, now)))
  {
    hide DecodeFrame, Faithful, T.Receive;
    if DecodeFrame(w.client.sealer, data).Some? {
      assert T.Carries(w.client.sealer, w.session.sessionId, data, w.sent);
    }
    ReceiveFaithful(w.client, linkId, data, now, w.sent);
  }

  lemma DownKeeps(w: Down, step: DownStep)
    requires DownInvariant(w) && DownPossible(w, step) && (step.Hand? ==> |w.sent| + 1 < MASK64)
    ensures DownInvariant(DownNext(w, step))
  {
    match step
    case Hand(packet, now) => HandKeeps(w, packet, now);
    case Reply(link, kind) => ReplyKeeps(w, link, kind);
    case Relink(links) => hide Faithful, T.Carries;
    case Reach(linkId, data, now) => ReachKeeps(w, linkId, data, now);
    case Rebind(linkId) => hide Faithful, T.Carries;
    case ClientTicker(now) =>
      TickFaithful(w.client.reorder, w.client.written, now, w.sent);
      hide Faithful, T.Carries, Tick;
  }

  ghost predicate DownRuns(w: Down, steps: seq<DownStep>)
    decreases |steps|
  {
    steps == [] ||
    (&& DownPossible(w, steps[0])
     && (steps[0].Hand? ==> |w.sent| + 1 < MASK64)
     && DownRuns(DownNext(w, steps[0]), steps[1..]))
  }

  ghost function DownAfter(w: Down, steps: seq<DownStep>): Down
    requires DownRuns(w, steps)
    decreases |steps|
  {
    if steps == [] then w else DownAfter(DownNext(w, steps[0]), steps[1..])
  }

  ghost predicate DownStart(w: Down, timeoutMs: real, capacity: int) {
    && w.session.sessionId < MASK32 && w.session.seqNo == 0 && w.sent == [] && w.net == {}
    && w.server.sealer == w.client.sealer
    && w.client.reorder == NewBuffer(timeoutMs, capacity) && w.client.written == []
  }

  lemma {:induction false} DownRunKeeps(w: Down, steps: seq<DownStep>)
    requires DownInvariant(w) && DownRuns(w, steps)
    ensures DownInvariant(DownAfter(w, steps))
    decreases |steps|
  {
    if steps != [] {
      DownKeeps(w, steps[0]);
      hide DownNext, DownInvariant, DownPossible;
      DownRunKeeps(DownNext(w, steps[0]), steps[1..]);
    }
  }

  /** The same for return traffic: one Session object's packets reach the client's TUN in order, none twice. */
  lemma {:induction false} DownstreamInOrder(w: Down, steps: seq<DownStep>, timeoutMs: real, capacity: int)
    requires DownStart(w, timeoutMs, capacity) && DownRuns(w, steps)
    ensures Selection(Payloads(DownAfter(w, steps).client.written), DownAfter(w, steps).sent)
  {
    NewFaithful(timeoutMs, capacity, []);
    DownRunKeeps(w, steps);
    hide DownNext, DownRuns;
    var w' := DownAfter(w, steps);
    FaithfulSelects(w'.client.reorder, w'.client.written, w'.sent);
  }
}
