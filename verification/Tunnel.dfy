/** The client half, turbobond/bond/tunnel.py, as functions on values.  The scheduler's choice of links is an input. */
module Tunnel {
  import opened Bytes
  import opened Crypto
  import opened Nonces
  import opened Protocol
  import opened Replay
  import opened Resequencer

  /** A bound uplink socket: its send counter, its receive window and whether the server has answered. */
  datatype LinkSocket = LinkSocket(counter: nat, replay: Window, handshaken: bool)

  const NEW_SOCKET := LinkSocket(0, NEW_WINDOW, false)

  /** `written` logs what the receive side has had written to the TUN device, oldest first. */
  datatype Client = Client(sealer: Sealer, sessionId: nat, seqNo: nat, sockets: map<int, LinkSocket>, reorder: Buffer,
                           dropped: nat, rejected: nat, written: seq<Entry>)

  function Advance(c: Client, linkId: int): Client
    requires linkId in c.sockets
  {
    c.(sockets := c.sockets[linkId := c.sockets[linkId].(counter := c.sockets[linkId].counter + 1)])
  }

  /** Copies of one stamped packet for the chosen links; an exception (bad size or link id) ends the loop. */
  function SendCopies(c: Client, chosen: seq<int>, seqNo: nat, packet: Bytes): (Client, seq<Bytes>)
    decreases |chosen|
  {
    if chosen == [] then (c, [])
    else if chosen[0] !in c.sockets then SendCopies(c, chosen[1..], seqNo, packet)
    else
      var c1 := Advance(c, chosen[0]);
      match EncodeFrame(c.sealer, DATA, c.sessionId, chosen[0], c1.sockets[chosen[0]].counter, seqNo, packet)
      case Err(_) => (c1, [])
      case Ok(d) =>
        var (c2, rest) := SendCopies(c1, chosen[1..], seqNo, packet);
        (c2, [d] + rest)
  }

  /** `_send_packet`: nothing to send over drops the packet before it is numbered. */
  function SendPacket(c: Client, chosen: seq<int>, packet: Bytes): (Client, seq<Bytes>) {
    if chosen == [] then (c.(dropped := c.dropped + 1), [])
    else SendCopies(c.(seqNo := c.seqNo + 1), chosen, c.seqNo + 1, packet)
  }

  /** `_send_control`: handshakes, keepalives and closes carry number 0 and no payload. */
  function SendControl(c: Client, linkId: int, kind: FrameType): (Client, seq<Bytes>) {
    if linkId !in c.sockets then (c, [])
    else
      var c1 := Advance(c, linkId);
      match EncodeFrame(c.sealer, kind, c.sessionId, linkId, c1.sockets[linkId].counter, 0, [])
      case Err(_) => (c1, [])
      case Ok(d) => (c1, [d])
  }

  const HANDSHAKE_RETRIES: nat := 3

  predicate Acknowledges(sealer: Sealer, data: Bytes) {
    match DecodeFrame(sealer, data)
    case None => false
    case Some(f) => f.kind == HANDSHAKE_ACK || f.kind == KEEPALIVE
  }

  function Handshaken(c: Client, linkId: int): Client
    requires linkId in c.sockets
  {
    c.(sockets := c.sockets[linkId := c.sockets[linkId].(handshaken := true)])
  }

  /**
   The loop of `_handshake_link`, one try per element of `answers`; None is a try that times out.  An answer is
   judged by its type alone, without the socket's window, and an exception on encoding ends the loop.
   */
  function Handshake(c: Client, linkId: int, answers: seq<Option<Bytes>>): (Client, seq<Bytes>, bool)
    requires linkId in c.sockets
    decreases |answers|
  {
    if answers == [] then (c, [], false)
    else
      var (c1, ds) := SendControl(c, linkId, HANDSHAKE);
      if ds == [] then (c1, [], false)
      else if answers[0].Some? && Acknowledges(c.sealer, answers[0].value) then (Handshaken(c1, linkId), ds, true)
      else
        var (c2, more, ok) := Handshake(c1, linkId, answers[1..]);
        (c2, ds + more, ok)
  }

  /** A socket opened by `start`, or reopened later: fresh counter, fresh window. */
  function Bind(c: Client, linkId: int): Client {
    c.(sockets := c.sockets[linkId := NEW_SOCKET])
  }

  /** `_handle_datagram` on the socket it arrived at. */
  function Handle(c: Client, linkId: int, data: Bytes, now: real): Client
    requires linkId in c.sockets
  {
    match DecodeFrame(c.sealer, data)
    case None => c.(rejected := c.rejected + 1)
    case Some(f) =>
      var socket := c.sockets[linkId];
      if !socket.replay.Fresh(f.counter) then c.(rejected := c.rejected + 1)
      else
        var heard := socket.(replay := socket.replay.Record(f.counter), handshaken := f.kind != CLOSE);
        var c1 := c.(sockets := c.sockets[linkId := heard]);
        if f.kind == DATA && f.payload != [] then
          var (buffer, out) := Push(c1.reorder, f.seqNo, f.payload, now);
          c1.(reorder := buffer, written := c1.written + out)
        else c1
  }

  /** The socket reader's gate in front of `_handle_datagram`: empty and headerless datagrams are skipped. */
  function Receive(c: Client, linkId: int, data: Bytes, now: real): Client
    requires linkId in c.sockets
  {
    if |data| < HEADER_LEN then c else Handle(c, linkId, data, now)
  }

  function TickReorder(c: Client, now: real): Client {
    var (buffer, out) := Tick(c.reorder, now);
    c.(reorder := buffer, written := c.written + out)
  }

  // ----- what sending puts on the wire

  /** A genuine datagram of this session; a data frame carries the packet its number names. */
  ghost predicate Carries(sealer: Sealer, sessionId: nat, d: Bytes, stream: seq<Bytes>) {
    && DecodeFrame(sealer, d).Some?
    && var f := DecodeFrame(sealer, d).value;
       && f.sessionId == sessionId
       && (f.kind == DATA ==> 1 <= f.seqNo <= |stream| && f.payload == stream[f.seqNo - 1])
  }

  /** The datagram decodes to a frame of this kind with this number and payload. */
  ghost predicate Conveys(sealer: Sealer, sessionId: nat, d: Bytes, kind: FrameType, seqNo: nat, payload: Bytes) {
    && DecodeFrame(sealer, d).Some?
    && var f := DecodeFrame(sealer, d).value;
       f.kind == kind && f.sessionId == sessionId && f.seqNo == seqNo && f.payload == payload
  }

  lemma CopyCarries(sealer: Sealer, sessionId: nat, linkId: int, counter: nat, stream: seq<Bytes>)
    requires stream != [] && |stream| < MASK64 && sessionId < MASK32
    requires EncodeFrame(sealer, DATA, sessionId, linkId, counter, |stream|, stream[|stream| - 1]).Ok?
    ensures var d := EncodeFrame(sealer, DATA, sessionId, linkId, counter, |stream|, stream[|stream| - 1]).value;
            && Conveys(sealer, sessionId, d, DATA, |stream|, stream[|stream| - 1])
            && Carries(sealer, sessionId, d, stream)
  {
    DecodeAfterEncode(sealer, DATA, sessionId, linkId, counter, |stream|, stream[|stream| - 1]);
    SmallMod(sessionId, MASK32);
    SmallMod(|stream|, MASK64);
    hide EncodeFrame, DecodeFrame;
  }

  /** Every copy of a packet decodes to that packet under its number. */
  lemma {:induction false} CopiesCarry(c: Client, chosen: seq<int>, stream: seq<Bytes>)
    requires stream != [] && |stream| < MASK64 && c.sessionId < MASK32
    ensures var (c', ds) := SendCopies(c, chosen, |stream|, stream[|stream| - 1]);
            && (forall i :: 0 <= i < |ds| ==>
                  && Conveys(c.sealer, c.sessionId, ds[i], DATA, |stream|, stream[|stream| - 1])
                  && Carries(c.sealer, c.sessionId, ds[i], stream))
            && |ds| <= |chosen|
            && c'.sealer == c.sealer && c'.sessionId == c.sessionId && c'.seqNo == c.seqNo
            && c'.reorder == c.reorder && c'.written == c.written
    decreases |chosen|
  {
    if chosen != [] {
      if chosen[0] !in c.sockets {
        CopiesCarry(c, chosen[1..], stream);
      } else {
        var c1 := Advance(c, chosen[0]);
        var counter, packet := c1.sockets[chosen[0]].counter, stream[|stream| - 1];
        var e := EncodeFrame(c.sealer, DATA, c.sessionId, chosen[0], counter, |stream|, packet);
        if e.Ok? {
          CopyCarries(c.sealer, c.sessionId, chosen[0], counter, stream);
          hide EncodeFrame, Carries, Conveys;
          CopiesCarry(c1, chosen[1..], stream);
        }
      }
    }
  }

  lemma ControlCarries(c: Client, linkId: int, kind: FrameType, stream: seq<Bytes>)
    requires c.sessionId < MASK32 && kind != DATA
    ensures var (c', ds) := SendControl(c, linkId, kind);
            && (forall i :: 0 <= i < |ds| ==>
                  && Conveys(c.sealer, c.sessionId, ds[i], kind, 0, [])
                  && Carries(c.sealer, c.sessionId, ds[i], stream))
            && c'.sealer == c.sealer && c'.sessionId == c.sessionId && c'.seqNo == c.seqNo
            && c'.reorder == c.reorder && c'.written == c.written
  {
    if linkId in c.sockets {
      var counter := Advance(c, linkId).sockets[linkId].counter;
      if EncodeFrame(c.sealer, kind, c.sessionId, linkId, counter, 0, []).Ok? {
        DecodeAfterEncode(c.sealer, kind, c.sessionId, linkId, counter, 0, []);
        SmallMod(c.sessionId, MASK32);
        hide EncodeFrame, DecodeFrame;
      }
    }
  }

  // ----- exactly what leaves

  function Counter(c: Client, linkId: int): nat {
    if linkId in c.sockets then c.sockets[linkId].counter else 0
  }

  /** The chosen links that have a socket, in order. */
  function BoundOf(c: Client, chosen: seq<int>): seq<int> {
    if chosen == [] then [] else (if chosen[0] in c.sockets then [chosen[0]] else []) + BoundOf(c, chosen[1..])
  }

  /**
   How many of them get a copy: all before the first whose id needs more than four octets, none if the packet is too
   big.
   */
  function Leaving(bound: seq<int>, packet: Bytes): (n: nat)
    ensures n <= |bound|
    ensures forall i :: 0 <= i < n ==> 0 <= bound[i] < 0x1_0000_0000 && |packet| <= 1600
    ensures n < |bound| ==> |packet| > 1600 || !(0 <= bound[n] < 0x1_0000_0000)
  {
    if bound == [] || |packet| > 1600 || !(0 <= bound[0] < 0x1_0000_0000) then 0 else 1 + Leaving(bound[1..], packet)
  }

  function Times(ids: seq<int>, id: int): nat {
    multiset(ids)[id]
  }

  lemma TimesMore(id: int, ids: seq<int>, n: nat, l: int)
    requires n <= |ids|
    ensures ([id] + ids)[..n + 1] == [id] + ids[..n]
    ensures Times(([id] + ids)[..n + 1], l) == (if l == id then 1 else 0) + Times(ids[..n], l)
  {
    assert ([id] + ids)[..n + 1] == [id] + ids[..n];
  }

  lemma {:induction false} SameBound(c: Client, c1: Client, chosen: seq<int>)
    requires c1.sockets.Keys == c.sockets.Keys
    ensures BoundOf(c1, chosen) == BoundOf(c, chosen)
  {
    if chosen != [] { SameBound(c, c1, chosen[1..]); }
  }

  /** The i-th copy: on the i-th bound link, under that link's next counter, with the packet and its number. */
  ghost predicate CopyOf(c: Client, bound: seq<int>, i: nat, seqNo: nat, packet: Bytes, d: Bytes)
    requires i < |bound| && bound[i] >= 0
  {
    DecodeFrame(c.sealer, d)
      == Some(Frame(DATA, c.sessionId, bound[i], (Counter(c, bound[i]) + Times(bound[..i], bound[i]) + 1) % MASK64,
                    seqNo, packet, 1))
  }

  /** The first bound link: its copy, and the client with that counter spent. */
  lemma {:induction false} FirstCopy(c: Client, id: int, bound: seq<int>, seqNo: nat, packet: Bytes)
    requires id in c.sockets && c.sessionId < MASK32 && seqNo < MASK64
    ensures Leaving([id] + bound, packet) > 0 ==> id >= 0
    ensures var c1 := Advance(c, id);
            var e := EncodeFrame(c.sealer, DATA, c.sessionId, id, c1.sockets[id].counter, seqNo, packet);
            && c1.sockets.Keys == c.sockets.Keys
            && (e.Ok? <==> Leaving([id] + bound, packet) > 0)
            && (e.Ok? ==> CopyOf(c, [id] + bound, 0, seqNo, packet, e.value))
            && (forall l :: Counter(c1, l) == Counter(c, l) + if l == id then 1 else 0)
  {
    var c1 := Advance(c, id);
    var counter := c1.sockets[id].counter;
    assert c1.sockets.Keys == c.sockets.Keys;
    if EncodeFrame(c.sealer, DATA, c.sessionId, id, counter, seqNo, packet).Ok? {
      DecodeAfterEncode(c.sealer, DATA, c.sessionId, id, counter, seqNo, packet);
      SmallMod(c.sessionId, MASK32);
      SmallMod(seqNo, MASK64);
    }
    hide EncodeFrame, DecodeFrame;
    assert Times([], id) == 0 && ([id] + bound)[..0] == [];
  }

  lemma LaterCopy(c: Client, c1: Client, id: int, bound: seq<int>, i: nat, seqNo: nat, packet: Bytes, d: Bytes)
    requires i < |bound| && bound[i] >= 0 && c1.sealer == c.sealer && c1.sessionId == c.sessionId
    requires forall l :: Counter(c1, l) == Counter(c, l) + if l == id then 1 else 0
    requires CopyOf(c1, bound, i, seqNo, packet, d)
    ensures CopyOf(c, [id] + bound, i + 1, seqNo, packet, d)
  {
    hide DecodeFrame, Times, Counter;
    TimesMore(id, bound, i, bound[i]);
    assert ([id] + bound)[i + 1] == bound[i];
  }

  lemma NoTimes(l: int)
    ensures Times([], l) == 0
  {
  }

  /**
   What a packet for these bound links must put on the wire: one datagram for each link in that order, up to the first
   id that cannot be encoded, each the packet's copy for its link.  A counter is spent for each, and for the one that
   failed.
   */
  ghost predicate Sends(c: Client, bound: seq<int>, seqNo: nat, packet: Bytes, c': Client, ds: seq<Bytes>) {
    var n := Leaving(bound, packet);
    && |ds| == n
    && (forall i :: 0 <= i < n ==> CopyOf(c, bound, i, seqNo, packet, ds[i]))
    && c'.sockets.Keys == c.sockets.Keys
    && (forall l :: Counter(c', l) == Counter(c, l) + Times(bound[..if n < |bound| then n + 1 else n], l))
  }

  lemma SendsNothing(c: Client, seqNo: nat, packet: Bytes)
    ensures Sends(c, [], seqNo, packet, c, [])
  {
    forall l ensures Times([], l) == 0 { NoTimes(l); }
  }

  lemma {:induction false} SendsNoFirst(c: Client, c1: Client, id: int, bound: seq<int>, seqNo: nat, packet: Bytes)
    requires Leaving([id] + bound, packet) == 0 && c1.sockets.Keys == c.sockets.Keys
    requires forall l :: Counter(c1, l) == Counter(c, l) + if l == id then 1 else 0
    ensures Sends(c, [id] + bound, seqNo, packet, c1, [])
  {
    hide Counter, Times;
    forall l ensures Times(([id] + bound)[..1], l) == if l == id then 1 else 0 {
      TimesMore(id, bound, 0, l);
      NoTimes(l);
      assert bound[..0] == [];
    }
  }

  lemma {:induction false} SendsMore(c: Client, c1: Client, c2: Client, id: int, bound: seq<int>, seqNo: nat,
                                     packet: Bytes, d: Bytes, rest: seq<Bytes>)
    requires Leaving([id] + bound, packet) > 0 && c1.sockets.Keys == c.sockets.Keys
    requires c1.sealer == c.sealer && c1.sessionId == c.sessionId
    requires forall l :: Counter(c1, l) == Counter(c, l) + if l == id then 1 else 0
    requires CopyOf(c, [id] + bound, 0, seqNo, packet, d) && Sends(c1, bound, seqNo, packet, c2, rest)
    ensures Sends(c, [id] + bound, seqNo, packet, c2, [d] + rest)
  {
    hide Counter, Times, CopyOf;
    var n := Leaving(bound, packet);
    assert ([id] + bound)[1..] == bound;
    assert Leaving([id] + bound, packet) == n + 1;
    forall i | 0 <= i < n ensures CopyOf(c, [id] + bound, i + 1, seqNo, packet, rest[i]) {
      LaterCopy(c, c1, id, bound, i, seqNo, packet, rest[i]);
    }
    forall i | 0 <= i < n + 1 ensures CopyOf(c, [id] + bound, i, seqNo, packet, ([d] + rest)[i]) {
      if i > 0 { assert CopyOf(c, [id] + bound, (i - 1) + 1, seqNo, packet, rest[i - 1]); }
    }
    var tried := if n < |bound| then n + 1 else n;
    forall l ensures Counter(c2, l) == Counter(c, l) + Times(([id] + bound)[..tried + 1], l) {
      TimesMore(id, bound, tried, l);
    }
  }

  /** `_send_packet` sends exactly that. */
  lemma {:induction false} CopiesSent(c: Client, chosen: seq<int>, seqNo: nat, packet: Bytes)
    requires c.sessionId < MASK32 && seqNo < MASK64
    ensures var (c', ds) := SendCopies(c, chosen, seqNo, packet);
            Sends(c, BoundOf(c, chosen), seqNo, packet, c', ds)
    decreases |chosen|
  {
    hide EncodeFrame, CopyOf, Counter, Sends, Leaving;
    if chosen == [] {
      SendsNothing(c, seqNo, packet);
    } else if chosen[0] !in c.sockets {
      assert BoundOf(c, chosen) == BoundOf(c, chosen[1..]);
      CopiesSent(c, chosen[1..], seqNo, packet);
    } else {
      var id, bound := chosen[0], BoundOf(c, chosen[1..]);
      var c1 := Advance(c, id);
      FirstCopy(c, id, bound, seqNo, packet);
      if Leaving([id] + bound, packet) > 0 {
        SameBound(c, c1, chosen[1..]);
        CopiesSent(c1, chosen[1..], seqNo, packet);
        var (c2, rest) := SendCopies(c1, chosen[1..], seqNo, packet);
        SendsMore(c, c1, c2, id, bound, seqNo, packet,
                  EncodeFrame(c.sealer, DATA, c.sessionId, id, c1.sockets[id].counter, seqNo, packet).value, rest);
      } else {
        SendsNoFirst(c, c1, id, bound, seqNo, packet);
      }
    }
  }

  lemma SendsAlike(c0: Client, c: Client, bound: seq<int>, seqNo: nat, packet: Bytes, c': Client, ds: seq<Bytes>)
    requires c0.sockets == c.sockets && c0.sealer == c.sealer && c0.sessionId == c.sessionId
    requires Sends(c0, bound, seqNo, packet, c', ds)
    ensures Sends(c, bound, seqNo, packet, c', ds)
  {
    hide Leaving, Times, DecodeFrame;
    assert forall l :: Counter(c0, l) == Counter(c, l);
    forall i | 0 <= i < Leaving(bound, packet) ensures CopyOf(c, bound, i, seqNo, packet, ds[i]) {
      assert CopyOf(c0, bound, i, seqNo, packet, ds[i]);
    }
  }

  lemma {:induction false} OnlySockets(c: Client, chosen: seq<int>, seqNo: nat, packet: Bytes)
    ensures var c' := SendCopies(c, chosen, seqNo, packet).0; c'.(sockets := c.sockets) == c
    decreases |chosen|
  {
    hide EncodeFrame;
    if chosen != [] {
      OnlySockets(c, chosen[1..], seqNo, packet);
      if chosen[0] in c.sockets { OnlySockets(Advance(c, chosen[0]), chosen[1..], seqNo, packet); }
    }
  }

  /** A packet nobody can carry is dropped before it is numbered; any other takes the next number on every copy. */
  lemma {:induction false} PacketSent(c: Client, chosen: seq<int>, packet: Bytes)
    requires c.sessionId < MASK32 && c.seqNo + 1 < MASK64
    ensures var (c', ds) := SendPacket(c, chosen, packet);
            if chosen == [] then c'.dropped == c.dropped + 1 && c'.(dropped := c.dropped) == c && ds == []
            else c'.seqNo == c.seqNo + 1 && c'.(seqNo := c.seqNo, sockets := c.sockets) == c
                 && Sends(c, BoundOf(c, chosen), c.seqNo + 1, packet, c', ds)
  {
    hide SendCopies, BoundOf, Sends;
    if chosen != [] {
      var c0 := c.(seqNo := c.seqNo + 1);
      CopiesSent(c0, chosen, c.seqNo + 1, packet);
      OnlySockets(c0, chosen, c.seqNo + 1, packet);
      SameBound(c, c0, chosen);
      var (c', ds) := SendCopies(c0, chosen, c.seqNo + 1, packet);
      SendsAlike(c0, c, BoundOf(c, chosen), c.seqNo + 1, packet, c', ds);
    }
  }

  lemma ControlDecodes(c: Client, linkId: int, kind: FrameType)
    requires c.sessionId < MASK32
    ensures var e := EncodeFrame(c.sealer, kind, c.sessionId, linkId, Counter(c, linkId) + 1, 0, []);
            && (e.Ok? <==> 0 <= linkId < MASK32)
            && (e.Ok? ==>
                  DecodeFrame(c.sealer, e.value)
                    == Some(Frame(kind, c.sessionId, linkId, (Counter(c, linkId) + 1) % MASK64, 0, [], 1)))
  {
    hide DecodeFrame;
    if 0 <= linkId < MASK32 {
      DecodeAfterEncode(c.sealer, kind, c.sessionId, linkId, Counter(c, linkId) + 1, 0, []);
      SmallMod(c.sessionId, MASK32);
    }
  }

  /**
   A control frame is one datagram of its kind on its link, under the link's next counter, with number 0 and no
   payload.
   */
  lemma ControlSent(c: Client, linkId: int, kind: FrameType)
    requires c.sessionId < MASK32
    ensures var (c', ds) := SendControl(c, linkId, kind);
            if linkId !in c.sockets then c' == c && ds == []
            else
              && (forall l :: Counter(c', l) == Counter(c, l) + if l == linkId then 1 else 0)
              && (|ds| == if 0 <= linkId < 0x1_0000_0000 then 1 else 0)
              && (0 <= linkId < 0x1_0000_0000 ==>
                    DecodeFrame(c.sealer, ds[0])
                      == Some(Frame(kind, c.sessionId, linkId, (Counter(c, linkId) + 1) % MASK64, 0, [], 1)))
  {
    hide EncodeFrame, DecodeFrame;
    ControlDecodes(c, linkId, kind);
    if linkId in c.sockets {
      forall l ensures Counter(Advance(c, linkId), l) == Counter(c, l) + if l == linkId then 1 else 0 { }
    }
  }

  /** A longer stream explains everything a shorter one did. */
  lemma CarriesLonger(sealer: Sealer, sessionId: nat, d: Bytes, stream: seq<Bytes>, more: seq<Bytes>)
    requires Carries(sealer, sessionId, d, stream)
    ensures Carries(sealer, sessionId, d, stream + more)
  {
    hide DecodeFrame;
  }

  // ----- nonces

  datatype Sending = Packet(chosen: seq<int>, packet: Bytes) | Control(linkId: int, kind: FrameType)

  function SendOne(c: Client, op: Sending): (Client, seq<Bytes>) {
    match op
    case Packet(chosen, packet) => SendPacket(c, chosen, packet)
    case Control(linkId, kind) => SendControl(c, linkId, kind)
  }

  function SendRun(c: Client, ops: seq<Sending>): (Client, seq<Bytes>)
    decreases |ops|
  {
    if ops == [] then (c, [])
    else
      var (c1, ds) := SendOne(c, ops[0]);
      var (c2, more) := SendRun(c1, ops[1..]);
      (c2, ds + more)
  }

  function Counts(c: Client): int -> nat {
    (l: int) => Counter(c, l)
  }

  /** Between two client states each datagram's counter is new for its link, and later ones are larger. */
  ghost predicate FreshCounters(c: Client, c': Client, ds: seq<Bytes>) {
    c'.sockets.Keys == c.sockets.Keys && Rising(Counts(c), Counts(c'), ds)
  }

  lemma FreshAppend(c: Client, c1: Client, c2: Client, ds: seq<Bytes>, more: seq<Bytes>)
    requires FreshCounters(c, c1, ds) && FreshCounters(c1, c2, more)
    ensures FreshCounters(c, c2, ds + more)
  {
    hide Rising, Counts;
    RisingAppend(Counts(c), Counts(c1), Counts(c2), ds, more);
  }

  /** Counters stay within the 8-octet field, so masking never folds two of them together. */
  ghost predicate Narrow(c: Client) {
    forall l :: l in c.sockets ==> c.sockets[l].counter < MASK64
  }

  lemma OneFresh(c: Client, linkId: int, kind: FrameType, seqNo: nat, payload: Bytes)
    requires linkId in c.sockets && Narrow(Advance(c, linkId))
    ensures var c1 := Advance(c, linkId);
            var e := EncodeFrame(c.sealer, kind, c.sessionId, linkId, c1.sockets[linkId].counter, seqNo, payload);
            FreshCounters(c, c1, []) && (e.Ok? ==> FreshCounters(c, c1, [e.value]))
  {
    var c1 := Advance(c, linkId);
    var e := EncodeFrame(c.sealer, kind, c.sessionId, linkId, c1.sockets[linkId].counter, seqNo, payload);
    if e.Ok? { EncodedHeader(c.sealer, kind, c.sessionId, linkId, c1.sockets[linkId].counter, seqNo, payload); }
    hide EncodeFrame, LinkOf, CounterIn;
  }

  lemma NarrowBefore(c: Client, c': Client, ds: seq<Bytes>)
    requires FreshCounters(c, c', ds) && Narrow(c')
    ensures Narrow(c)
  {
    forall l | l in c.sockets ensures c.sockets[l].counter < MASK64 { assert Counts(c)(l) <= Counts(c')(l); }
  }

  lemma {:induction false} CopiesFresh(c: Client, chosen: seq<int>, seqNo: nat, packet: Bytes)
    requires Narrow(SendCopies(c, chosen, seqNo, packet).0)
    ensures var (c', ds) := SendCopies(c, chosen, seqNo, packet); FreshCounters(c, c', ds)
    decreases |chosen|
  {
    if chosen != [] {
      if chosen[0] !in c.sockets {
        CopiesFresh(c, chosen[1..], seqNo, packet);
      } else {
        var c1 := Advance(c, chosen[0]);
        var e := EncodeFrame(c.sealer, DATA, c.sessionId, chosen[0], c1.sockets[chosen[0]].counter, seqNo, packet);
        if e.Ok? {
          CopiesFresh(c1, chosen[1..], seqNo, packet);
          var (c2, rest) := SendCopies(c1, chosen[1..], seqNo, packet);
          NarrowBefore(c1, c2, rest);
          hide EncodeFrame, FreshCounters, Narrow;
          OneFresh(c, chosen[0], DATA, seqNo, packet);
          FreshAppend(c, c1, c2, [e.value], rest);
        } else {
          OneFresh(c, chosen[0], DATA, seqNo, packet);
        }
      }
    }
  }

  lemma SameCounts(c: Client, c0: Client, c': Client, ds: seq<Bytes>)
    requires c0.sockets == c.sockets && FreshCounters(c0, c', ds)
    ensures FreshCounters(c, c', ds)
  {
    assert forall l :: Counts(c0)(l) == Counts(c)(l);
  }

  lemma SendOneFresh(c: Client, op: Sending)
    requires Narrow(SendOne(c, op).0)
    ensures var (c', ds) := SendOne(c, op); FreshCounters(c, c', ds)
  {
    hide EncodeFrame;
    match op
    case Control(linkId, kind) => if linkId in c.sockets { OneFresh(c, linkId, kind, 0, []); }
    case Packet(chosen, packet) =>
      if chosen != [] {
        var c0 := c.(seqNo := c.seqNo + 1);
        CopiesFresh(c0, chosen, c.seqNo + 1, packet);
        hide SendCopies;
        SameCounts(c, c0, SendCopies(c0, chosen, c.seqNo + 1, packet).0, SendCopies(c0, chosen, c.seqNo + 1, packet).1);
      }
  }

  lemma {:induction false} RunFresh(c: Client, ops: seq<Sending>)
    requires Narrow(SendRun(c, ops).0)
    ensures var (c', ds) := SendRun(c, ops); FreshCounters(c, c', ds)
    decreases |ops|
  {
    if ops == [] {
      assert forall l :: Counts(c)(l) <= Counts(c)(l);
    } else {
      var (c1, ds) := SendOne(c, ops[0]);
      var (c2, more) := SendRun(c1, ops[1..]);
      RunFresh(c1, ops[1..]);
      NarrowBefore(c1, c2, more);
      hide SendOne, Narrow, FreshCounters;
      SendOneFresh(c, ops[0]);
      FreshAppend(c, c1, c2, ds, more);
    }
  }

  lemma NarrowCounts(c: Client)
    requires Narrow(c)
    ensures forall l :: Counts(c)(l) < MASK64
  {
  }

  /**
   On one set of sockets no nonce is ever used twice: over any run of sends, two datagrams of the same link carry
   different counters, the later one the larger, and any two datagrams were sealed under different nonces.
   */
  lemma {:induction false} NoncesNeverRepeat(c: Client, ops: seq<Sending>)
    requires Narrow(SendRun(c, ops).0)
    ensures var (c', ds) := SendRun(c, ops);
            && FreshCounters(c, c', ds)
            && forall i, j :: 0 <= i < j < |ds| ==>
                 && (LinkOf(ds[i]) != LinkOf(ds[j]) || CounterIn(ds[i]) < CounterIn(ds[j]))
                 && NonceOf(ds[i]) != NonceOf(ds[j])
  {
    RunFresh(c, ops);
    hide SendRun, LinkOf, CounterIn, NonceOf;
    var (c', ds) := SendRun(c, ops);
    NarrowCounts(c');
    forall i, j | 0 <= i < j < |ds| ensures NonceOf(ds[i]) != NonceOf(ds[j]) {
      RisingNonces(Counts(c), Counts(c'), ds, i, j);
    }
  }
}
