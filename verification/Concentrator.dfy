/**
 The server half, turbobond/bond/server.py, as functions on values.  `links` is an insertion-ordered dictionary.
 Sends that leave over the socket are returned as datagrams; the wall clock is a parameter.
 */
module Concentrator {
  import opened Bytes
  import opened Crypto
  import opened Protocol
  import opened Replay
  import opened Resequencer

  const SESSION_IDLE_TIMEOUT: real := 120.0
  const REORDER_CAPACITY: int := 4096

  type Address = (string, nat)

  datatype PeerLink = PeerLink(linkId: nat, addr: Address, counter: nat, rx: nat, tx: nat, lastSeen: real,
                               replay: Window)

  /** `released` logs what this Session object has had written to the TUN device, oldest first. */
  datatype Session = Session(sessionId: nat, links: seq<PeerLink>, reorder: Buffer, seqNo: nat, created: real,
                             cursor: nat, released: seq<Entry>)

  datatype Server = Server(sealer: Sealer, reorderMs: real, sessions: map<nat, Session>, rejected: nat)

  function Alive(l: PeerLink, now: real): bool {
    now - l.lastSeen < SESSION_IDLE_TIMEOUT
  }

  function Find(links: seq<PeerLink>, linkId: nat): (i: Option<nat>)
    ensures i.Some? ==> i.value < |links| && links[i.value].linkId == linkId
    ensures i.None? ==> forall j :: 0 <= j < |links| ==> links[j].linkId != linkId
  {
    if links == [] then None
    else if links[0].linkId == linkId then Some(0)
    else
      var tail := links[1..];
      match Find(tail, linkId)
      case None =>
        assert forall j :: 0 < j < |links| ==> links[j] == tail[j - 1];
        None
      case Some(i) => Some(i + 1)
  }

  function Living(links: seq<PeerLink>, now: real): (live: seq<PeerLink>)
    ensures |live| <= |links|
    ensures forall l :: l in live <==> l in links && Alive(l, now)
  {
    if links == [] then []
    else (if Alive(links[0], now) then [links[0]] else []) + Living(links[1..], now)
  }

  function NewSession(s: Server, sessionId: nat, now: real): Session {
    Session(sessionId, [], NewBuffer(s.reorderMs, REORDER_CAPACITY), 0, now, 0, [])
  }

  function SessionFor(s: Server, sessionId: nat, now: real): Session {
    if sessionId in s.sessions then s.sessions[sessionId] else NewSession(s, sessionId, now)
  }

  /** The uplink a frame came over: known, moved to a new address, or just joined. */
  function Joined(links: seq<PeerLink>, linkId: nat, addr: Address, now: real): (r: (seq<PeerLink>, nat))
    ensures r.1 < |r.0| && r.0[r.1].linkId == linkId && |r.0| >= |links|
  {
    match Find(links, linkId)
    case Some(i) => (links[i := links[i].(addr := addr)], i)
    case None => (links + [PeerLink(linkId, addr, 0, 0, 0, now, NEW_WINDOW)], |links|)
  }

  /** `_send` to one peer: its counter advances even when nothing can be encoded. */
  function SendTo(s: Server, session: Session, i: nat, kind: FrameType, seqNo: nat, payload: Bytes):
      (Session, Option<(Bytes, Address)>)
    requires i < |session.links|
  {
    var peer := session.links[i].(counter := session.links[i].counter + 1);
    match EncodeFrame(s.sealer, kind, session.sessionId, peer.linkId, peer.counter, seqNo, payload)
    case Err(_) => (session.(links := session.links[i := peer]), None)
    case Ok(d) => (session.(links := session.links[i := peer.(tx := peer.tx + 1)]), Some((d, peer.addr)))
  }

  function Store(s: Server, session: Session): Server {
    s.(sessions := s.sessions[session.sessionId := session])
  }

  /** What a fresh frame does once its link is known and its counter accepted. */
  function Deliver(s: Server, session: Session, i: nat, f: Frame, now: real): (Server, Option<(Bytes, Address)>)
    requires i < |session.links| && session.sessionId == f.sessionId
  {
    match f.kind
    case HANDSHAKE =>
      var (session', reply) := SendTo(s, session, i, HANDSHAKE_ACK, 0, []);
      (Store(s, session'), reply)
    case KEEPALIVE =>
      var (session', reply) := SendTo(s, session, i, KEEPALIVE, 0, []);
      (Store(s, session'), reply)
    case CLOSE =>
      var links := session.links[..i] + session.links[i + 1..];
      if links == [] then (s.(sessions := s.sessions - {f.sessionId}), None)
      else (Store(s, session.(links := links)), None)
    case DATA =>
      if f.payload == [] then (Store(s, session), None)
      else
        var (buffer, out) := Push(session.reorder, f.seqNo, f.payload, now);
        (Store(s, session.(reorder := buffer, released := session.released + out)), None)
    case HANDSHAKE_ACK => (Store(s, session), None)
    case LINK_STATS => (Store(s, session), None)
  }

  /** `handle_datagram` from the point where the frame has been authenticated. */
  function Process(s: Server, f: Frame, addr: Address, now: real): (Server, Option<(Bytes, Address)>) {
    var session := SessionFor(s, f.sessionId, now).(sessionId := f.sessionId);
    var (links, i) := Joined(session.links, f.linkId, addr, now);
    var peer := links[i];
    if !peer.replay.Fresh(f.counter) then
      (Store(s, session.(links := links)).(rejected := s.rejected + 1), None)
    else
      var seen := peer.(replay := peer.replay.Record(f.counter), lastSeen := now, rx := peer.rx + 1);
      Deliver(s, session.(links := links[i := seen]), i, f, now)
  }

  /** `handle_datagram`. */
  function Handle(s: Server, data: Bytes, addr: Address, now: real): (Server, Option<(Bytes, Address)>) {
    match DecodeFrame(s.sealer, data)
    case None => (s.(rejected := s.rejected + 1), None)
    case Some(f) => Process(s, f, addr, now)
  }

  /** The listener's size gate in front of `handle_datagram`. */
  function Receive(s: Server, data: Bytes, addr: Address, now: real): (Server, Option<(Bytes, Address)>) {
    if |data| <= MAX_DATAGRAM then Handle(s, data, addr, now) else (s, None)
  }

  /** One pass of the reorder ticker. */
  function TickSession(session: Session, now: real): Session {
    var (buffer, out) := Tick(session.reorder, now);
    session.(reorder := buffer, released := session.released + out)
  }

  function TickAll(s: Server, now: real): Server {
    s.(sessions := map id | id in s.sessions :: TickSession(s.sessions[id], now))
  }

  /** One pass of the reaper: silent links leave, and a session without links with them. */
  function Reap(s: Server, now: real): Server {
    s.(sessions := map id | id in s.sessions && Living(s.sessions[id].links, now) != [] ::
         s.sessions[id].(links := Living(s.sessions[id].links, now)))
  }

  /** The return link for the cursor among the live links, if there is one. */
  function ReturnLink(session: Session, now: real): Option<PeerLink> {
    var live := Living(session.links, now);
    if live == [] then None else Some(live[session.cursor % |live|])
  }

  lemma ReturnLinkFound(session: Session, now: real)
    requires ReturnLink(session, now).Some?
    ensures ReturnLink(session, now).value in session.links
    ensures Find(session.links, ReturnLink(session, now).value.linkId).Some?
  {
    var live := Living(session.links, now);
    assert live[session.cursor % |live|] in live;
  }

  /** The packet is stamped with the session's next number and leaves over the picked link. */
  function Return(s: Server, session: Session, packet: Bytes, now: real): (Session, Option<(Bytes, Address)>)
    requires ReturnLink(session, now).Some?
  {
    ReturnLinkFound(session, now);
    var i := Find(session.links, ReturnLink(session, now).value.linkId).value;
    var stamped := session.(cursor := session.cursor + 1, seqNo := session.seqNo + 1);
    SendTo(s, stamped, i, DATA, stamped.seqNo, packet)
  }

  /** `_dispatch_downstream` over the sessions, newest first; `ranked` lists their ids in that order. */
  function Dispatch(s: Server, ranked: seq<nat>, packet: Bytes, now: real): (Server, Option<(Bytes, Address)>)
    requires forall i :: 0 <= i < |ranked| ==> ranked[i] in s.sessions
  {
    if ranked == [] then (s, None)
    else
      var session := s.sessions[ranked[0]];
      match ReturnLink(session, now)
      case None => Dispatch(s, ranked[1..], packet, now)
      case Some(peer) =>
        var (session', sent) := Return(s, session, packet, now);
        (Store(s, session'), sent)
  }

  // ----- the session table

  ghost predicate DistinctLinks(links: seq<PeerLink>) {
    forall i, j :: 0 <= i < j < |links| ==> links[i].linkId != links[j].linkId
  }

  /** Every stored session is stored under its own id, has a link, and has each link once. */
  ghost predicate Keyed(s: Server) {
    forall id :: id in s.sessions ==>
      s.sessions[id].sessionId == id && s.sessions[id].links != [] && DistinctLinks(s.sessions[id].links)
  }

  lemma {:induction false} LivingDistinct(links: seq<PeerLink>, now: real)
    requires DistinctLinks(links)
    ensures DistinctLinks(Living(links, now))
    decreases |links|
  {
    if links != [] {
      var tail := links[1..];
      assert forall i :: 0 <= i < |tail| ==> tail[i] == links[i + 1];
      LivingDistinct(tail, now);
      var rest := Living(tail, now);
      forall i | 0 <= i < |rest| ensures rest[i].linkId != links[0].linkId { assert rest[i] in rest; }
      assert Living(links, now) == (if Alive(links[0], now) then [links[0]] else []) + rest;
    }
  }

  lemma JoinedDistinct(links: seq<PeerLink>, linkId: nat, addr: Address, now: real)
    requires DistinctLinks(links)
    ensures DistinctLinks(Joined(links, linkId, addr, now).0)
  {
  }

  lemma StoreKeyed(s: Server, session: Session)
    requires Keyed(s) && session.links != [] && DistinctLinks(session.links)
    ensures Keyed(Store(s, session))
  {
  }

  lemma DeliverKeyed(s: Server, session: Session, i: nat, f: Frame, now: real)
    requires Keyed(s) && i < |session.links| && session.sessionId == f.sessionId && DistinctLinks(session.links)
    ensures Keyed(Deliver(s, session, i, f, now).0)
  {
    hide Push, EncodeFrame, Store;
    match f.kind
    case HANDSHAKE => StoreKeyed(s, SendTo(s, session, i, HANDSHAKE_ACK, 0, []).0);
    case KEEPALIVE => StoreKeyed(s, SendTo(s, session, i, KEEPALIVE, 0, []).0);
    case CLOSE =>
      var links := session.links[..i] + session.links[i + 1..];
      if links != [] { StoreKeyed(s, session.(links := links)); }
    case DATA =>
      var (buffer, out) := Push(session.reorder, f.seqNo, f.payload, now);
      StoreKeyed(s, session.(reorder := buffer, released := session.released + out));
      StoreKeyed(s, session);
    case HANDSHAKE_ACK => StoreKeyed(s, session);
    case LINK_STATS => StoreKeyed(s, session);
  }

  lemma SessionForDistinct(s: Server, id: nat, now: real)
    requires Keyed(s)
    ensures DistinctLinks(SessionFor(s, id, now).links)
  {
  }

  lemma StoreRejected(s: Server, session: Session)
    requires Keyed(Store(s, session))
    ensures Keyed(Store(s, session).(rejected := s.rejected + 1))
  {
  }

  lemma ProcessKeyed(s: Server, f: Frame, addr: Address, now: real)
    requires Keyed(s)
    ensures Keyed(Process(s, f, addr, now).0)
  {
    hide SessionFor, Keyed, Deliver, Store, Joined;
    SessionForDistinct(s, f.sessionId, now);
    var session := SessionFor(s, f.sessionId, now).(sessionId := f.sessionId);
    JoinedDistinct(session.links, f.linkId, addr, now);
    var (links, i) := Joined(session.links, f.linkId, addr, now);
    var peer := links[i];
    var seen := peer.(replay := peer.replay.Record(f.counter), lastSeen := now, rx := peer.rx + 1);
    assert DistinctLinks(links[i := seen]);
    hide DistinctLinks;
    StoreKeyed(s, session.(links := links));
    StoreRejected(s, session.(links := links));
    DeliverKeyed(s, session.(links := links[i := seen]), i, f, now);
  }

  /** The session table is well formed after every datagram, genuine or not. */
  lemma HandleKeyed(s: Server, data: Bytes, addr: Address, now: real)
    requires Keyed(s)
    ensures Keyed(Receive(s, data, addr, now).0)
  {
    hide DecodeFrame, Process;
    if |data| <= MAX_DATAGRAM && DecodeFrame(s.sealer, data).Some? {
      ProcessKeyed(s, DecodeFrame(s.sealer, data).value, addr, now);
    }
  }

  lemma ReapKeyed(s: Server, now: real)
    requires Keyed(s)
    ensures Keyed(Reap(s, now))
    ensures forall id :: id in Reap(s, now).sessions <==>
              id in s.sessions && exists l :: l in s.sessions[id].links && Alive(l, now)
  {
    forall id | id in s.sessions ensures DistinctLinks(Living(s.sessions[id].links, now)) {
      LivingDistinct(s.sessions[id].links, now);
    }
    forall id | id in s.sessions
      ensures Living(s.sessions[id].links, now) != [] <==> exists l :: l in s.sessions[id].links && Alive(l, now)
    {
      var live := Living(s.sessions[id].links, now);
      if live != [] { assert live[0] in live; }
    }
  }

  // ----- spreading return traffic

  /** The live links a run of m return picks uses, when the links do not change. */
  function Picks(n: nat, cursor: nat, m: nat): seq<nat>
    requires n > 0
  {
    seq(m, k requires 0 <= k < m => (cursor + k) % n)
  }

  function Count(xs: seq<nat>, x: nat): nat {
    if xs == [] then 0 else (if xs[|xs| - 1] == x then 1 else 0) + Count(xs[..|xs| - 1], x)
  }

  /** How many of the numbers below t fall on residue j. */
  function Hits(t: nat, n: nat, j: nat): nat
    requires n > 0
  {
    t / n + if j < t % n then 1 else 0
  }

  lemma HitsStep(t: nat, n: nat, j: nat)
    requires n > 0 && j < n
    ensures Hits(t + 1, n, j) == Hits(t, n, j) + if t % n == j then 1 else 0
  {
    var q, r := t / n, t % n;
    assert t == q * n + r;
    if r + 1 < n {
      DivMod(t + 1, q, n, r + 1);
    } else {
      assert t + 1 == (q + 1) * n;
      DivMod(t + 1, q + 1, n, 0);
    }
  }

  lemma {:induction false} PicksCount(n: nat, cursor: nat, m: nat, j: nat)
    requires j < n
    ensures Count(Picks(n, cursor, m), j) == Hits(cursor + m, n, j) - Hits(cursor, n, j)
  {
    if m > 0 {
      PicksCount(n, cursor, m - 1, j);
      HitsStep(cursor + m - 1, n, j);
      hide Hits;
      assert Picks(n, cursor, m)[..m - 1] == Picks(n, cursor, m - 1);
    }
  }

  lemma HitsAt(t: nat, q: nat, n: nat, r: nat, j: nat)
    requires n > 0 && t == q * n + r && r < n
    ensures Hits(t, n, j) == q + if j < r then 1 else 0
  {
    DivMod(t, q, n, r);
  }

  lemma Divided(x: nat, n: nat)
    requires n > 0
    ensures x == (x / n) * n + x % n && x / n >= 0 && x % n < n
  {
  }

  lemma Distributes(q: nat, a: nat, n: nat)
    ensures (q + a) * n == q * n + a * n
  {
  }

  lemma HitsApart(x: nat, q: nat, r: nat, y: nat, a: nat, b: nat, n: nat, j: nat)
    requires j < n && r < n && b < n && x == q * n + r && y == a * n + b
    ensures var d := Hits(x + y, n, j) - Hits(x, n, j); d == a || (b > 0 && d == a + 1)
  {
    hide Hits;
    HitsAt(x, q, n, r, j);
    Distributes(q, a, n);
    if r + b < n {
      HitsAt(x + y, q + a, n, r + b, j);
    } else {
      Distributes(q + a, 1, n);
      HitsAt(x + y, q + a + 1, n, r + b - n, j);
    }
  }

  lemma HitsBetween(n: nat, cursor: nat, m: nat, j: nat)
    requires j < n
    ensures var d := Hits(cursor + m, n, j) - Hits(cursor, n, j);
            d == m / n || (m % n > 0 && d == m / n + 1)
  {
    hide Hits;
    Divided(cursor, n);
    Divided(m, n);
    HitsApart(cursor, cursor / n, cursor % n, m, m / n, m % n, n, j);
  }

  /** Over any m consecutive picks each of n unchanged live links is picked floor(m/n) or ceil(m/n) times. */
  lemma {:induction false} PicksSpread(n: nat, cursor: nat, m: nat, j: nat)
    requires j < n
    ensures var c := Count(Picks(n, cursor, m), j); c == m / n || (m % n > 0 && c == m / n + 1)
  {
    PicksCount(n, cursor, m, j);
    hide Hits, Count;
    HitsBetween(n, cursor, m, j);
  }

  function Ids(links: seq<PeerLink>): seq<nat> {
    seq<nat>(|links|, i requires 0 <= i < |links| => links[i].linkId)
  }

  function CounterOf(session: Session, linkId: nat): nat {
    match Find(session.links, linkId)
    case None => 0
    case Some(i) => session.links[i].counter
  }

  /** The same links with the same times of last contact: whoever was live still is. */
  ghost predicate SameContacts(links: seq<PeerLink>, links': seq<PeerLink>) {
    |links| == |links'| && forall i :: 0 <= i < |links| ==>
      links[i].linkId == links'[i].linkId && links[i].lastSeen == links'[i].lastSeen
  }

  lemma {:induction false} SameLiving(links: seq<PeerLink>, links': seq<PeerLink>, now: real)
    requires SameContacts(links, links')
    ensures Ids(Living(links, now)) == Ids(Living(links', now))
    decreases |links|
  {
    if links != [] {
      SameLiving(links[1..], links'[1..], now);
      var rest, rest' := Living(links[1..], now), Living(links'[1..], now);
      assert |rest| == |Ids(rest)| == |Ids(rest')| == |rest'|;
      forall k | 0 <= k < |rest| ensures rest[k].linkId == rest'[k].linkId {
        assert Ids(rest)[k] == Ids(rest')[k];
      }
    }
  }

  lemma {:induction false} FindDistinct(links: seq<PeerLink>, i: nat)
    requires DistinctLinks(links) && i < |links|
    ensures Find(links, links[i].linkId) == Some(i)
  {
    var r := Find(links, links[i].linkId);
    assert r.Some?;
    assert links[r.value].linkId == links[i].linkId;
  }

  lemma {:induction false} SameFind(links: seq<PeerLink>, links': seq<PeerLink>, linkId: nat)
    requires SameContacts(links, links')
    ensures Find(links, linkId) == Find(links', linkId)
  {
    if links != [] && links[0].linkId != linkId { SameFind(links[1..], links'[1..], linkId); }
  }

  /** One downstream packet: only the picked link's counter moves, and nobody's contact time does. */
  lemma {:induction false} ReturnOne(s: Server, session: Session, packet: Bytes, now: real, linkId: nat)
    requires DistinctLinks(session.links) && Living(session.links, now) != []
    ensures var live := Living(session.links, now);
            var session' := Return(s, session, packet, now).0;
            var picked := live[session.cursor % |live|].linkId;
            && SameContacts(session.links, session'.links) && DistinctLinks(session'.links)
            && session'.cursor == session.cursor + 1
            && CounterOf(session', linkId) == CounterOf(session, linkId) + (if linkId == picked then 1 else 0)
  {
    hide EncodeFrame, Living;
    ReturnLinkFound(session, now);
    var live := Living(session.links, now);
    var picked := live[session.cursor % |live|].linkId;
    var i := Find(session.links, picked).value;
    var session' := Return(s, session, packet, now).0;
    assert session'.links == session.links[i := session'.links[i]];
    FindDistinct(session.links, i);
    FindDistinct(session'.links, i);
    if linkId != picked {
      SameFind(session.links, session'.links, linkId);
    }
  }

  function ReturnAll(s: Server, session: Session, packets: seq<Bytes>, times: seq<real>): Session
    requires |packets| == |times|
    requires DistinctLinks(session.links)
    requires forall k :: 0 <= k < |times| ==> Living(session.links, times[k]) != []
    decreases |packets|
  {
    if packets == [] then session
    else
      ReturnOne(s, session, packets[0], times[0], 0);
      var session' := Return(s, session, packets[0], times[0]).0;
      assert forall k :: 0 <= k < |times[1..]| ==> Living(session'.links, times[1..][k]) != [] by {
        forall k | 0 <= k < |times[1..]| ensures Living(session'.links, times[1..][k]) != [] {
          SameLiving(session.links, session'.links, times[k + 1]);
          assert |Ids(Living(session.links, times[k + 1]))| > 0;
        }
      }
      ReturnAll(s, session', packets[1..], times[1..])
  }

  lemma {:induction false} NoPicks(n: nat, cursor: nat, j: nat)
    requires n > 0
    ensures Count(Picks(n, cursor, 0), j) == 0
  {
  }

  /** One downstream packet bumps the counter of live link ids[j] exactly when the cursor points at j. */
  lemma {:induction false} PickOne(s: Server, session: Session, packet: Bytes, now: real, ids: seq<nat>, j: nat)
    requires DistinctLinks(session.links) && Living(session.links, now) != [] && j < |ids|
    requires forall k, l :: 0 <= k < l < |ids| ==> ids[k] != ids[l]
    requires Ids(Living(session.links, now)) == ids
    ensures var session' := Return(s, session, packet, now).0;
            && SameContacts(session.links, session'.links) && DistinctLinks(session'.links)
            && session'.cursor == session.cursor + 1
            && CounterOf(session', ids[j])
               == CounterOf(session, ids[j]) + (if session.cursor % |ids| == j then 1 else 0)
  {
    hide Return, Living, CounterOf, SameContacts;
    ReturnOne(s, session, packet, now, ids[j]);
    var live := Living(session.links, now);
    assert live[session.cursor % |live|].linkId == ids[session.cursor % |live|];
  }

  lemma {:induction false} CountFirst(n: nat, cursor: nat, m: nat, j: nat)
    requires n > 0 && m > 0
    ensures Count(Picks(n, cursor, m), j) == (if cursor % n == j then 1 else 0) + Count(Picks(n, cursor + 1, m - 1), j)
  {
    assert Picks(n, cursor, m)[..m - 1] == Picks(n, cursor, m - 1);
    if m > 1 {
      CountFirst(n, cursor, m - 1, j);
      assert Picks(n, cursor + 1, m - 1)[..m - 2] == Picks(n, cursor + 1, m - 2);
    } else {
      assert Picks(n, cursor, 0) == [] && Picks(n, cursor + 1, 0) == [];
    }
  }

  /** Over any run during which the live links stay `ids`, link ids[j] is used as often as the cyclic picks say. */
  lemma {:induction false} ReturnsFollowPicks(s: Server, session: Session, packets: seq<Bytes>, times: seq<real>,
                                              ids: seq<nat>, j: nat)
    requires |packets| == |times| && DistinctLinks(session.links) && j < |ids|
    requires forall k, l :: 0 <= k < l < |ids| ==> ids[k] != ids[l]
    requires forall k :: 0 <= k < |times| ==> Living(session.links, times[k]) != []
    requires forall k :: 0 <= k < |times| ==> Ids(Living(session.links, times[k])) == ids
    ensures CounterOf(ReturnAll(s, session, packets, times), ids[j])
         == CounterOf(session, ids[j]) + Count(Picks(|ids|, session.cursor, |packets|), j)
    decreases |packets|
  {
    hide Return, Living, CounterOf, Count, SameContacts;
    if packets != [] {
      PickOne(s, session, packets[0], times[0], ids, j);
      var session' := Return(s, session, packets[0], times[0]).0;
      forall k | 0 <= k < |times[1..]|
        ensures Living(session'.links, times[1..][k]) != [] && Ids(Living(session'.links, times[1..][k])) == ids
      {
        SameLiving(session.links, session'.links, times[k + 1]);
        assert |Ids(Living(session'.links, times[k + 1]))| == |ids|;
      }
      ReturnsFollowPicks(s, session', packets[1..], times[1..], ids, j);
      CountFirst(|ids|, session.cursor, |packets|, j);
    } else {
      NoPicks(|ids|, session.cursor, j);
    }
  }

  /**
   Return spreading.  While the live links of a session stay the same n, any m consecutive downstream packets use
   each of them floor(m/n) or ceil(m/n) times.
   */
  lemma {:induction false} ReturnsSpread(s: Server, session: Session, packets: seq<Bytes>, times: seq<real>,
                                         ids: seq<nat>, j: nat)
    requires |packets| == |times| && DistinctLinks(session.links) && j < |ids|
    requires forall k, l :: 0 <= k < l < |ids| ==> ids[k] != ids[l]
    requires forall k :: 0 <= k < |times| ==> Living(session.links, times[k]) != []
    requires forall k :: 0 <= k < |times| ==> Ids(Living(session.links, times[k])) == ids
    ensures var used := CounterOf(ReturnAll(s, session, packets, times), ids[j]) - CounterOf(session, ids[j]);
            used == |packets| / |ids| || (|packets| % |ids| > 0 && used == |packets| / |ids| + 1)
  {
    ReturnsFollowPicks(s, session, packets, times, ids, j);
    PicksSpread(|ids|, session.cursor, |packets|, j);
  }
}
