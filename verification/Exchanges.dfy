/** What one side's datagram makes the other side do: replies, duplicates, closing, roaming and return traffic. */
module Exchanges {
  import opened Bytes
  import opened Crypto
  import opened Protocol
  import opened Replay
  import opened Resequencer
  import T = Tunnel
  import S = Concentrator

  /** The uplink of a session as the server has it stored. */
  function Peer(s: S.Server, sessionId: nat, linkId: nat): Option<S.PeerLink> {
    if sessionId !in s.sessions then None
    else
      match S.Find(s.sessions[sessionId].links, linkId)
      case None => None
      case Some(i) => Some(s.sessions[sessionId].links[i])
  }

  /** A counter the server would take from this uplink; an unknown uplink starts with an empty window. */
  predicate Welcome(s: S.Server, f: Frame) {
    match Peer(s, f.sessionId, f.linkId)
    case None => NEW_WINDOW.Fresh(f.counter)
    case Some(peer) => peer.replay.Fresh(f.counter)
  }

  /** The counter of the server's next datagram to this uplink. */
  function NextCounter(s: S.Server, sessionId: nat, linkId: nat): nat {
    match Peer(s, sessionId, linkId) case None => 1 case Some(peer) => peer.counter + 1
  }

  function Answer(kind: FrameType): Option<FrameType> {
    match kind
    case HANDSHAKE => Some(HANDSHAKE_ACK)
    case KEEPALIVE => Some(KEEPALIVE)
    case DATA => None
    case HANDSHAKE_ACK => None
    case LINK_STATS => None
    case CLOSE => None
  }

  /** The uplink a frame is counted on. */
  lemma JoinedPeer(s: S.Server, f: Frame, addr: S.Address, now: real)
    ensures var session := S.SessionFor(s, f.sessionId, now);
            var (links, i) := S.Joined(session.links, f.linkId, addr, now);
            && links[i].addr == addr && links[i].counter + 1 == NextCounter(s, f.sessionId, f.linkId)
            && (links[i].replay.Fresh(f.counter) <==> Welcome(s, f))
  {
  }

  /**
   A welcome handshake is answered with an acknowledgement and a keepalive with a keepalive, to the address the
   frame came from, on its own session and link, under the link's next counter.  Nothing else is answered.
   */
  lemma Answered(s: S.Server, f: Frame, addr: S.Address, now: real)
    requires f.sessionId < MASK32 && f.linkId < MASK32 && Welcome(s, f)
    ensures var d := S.Process(s, f, addr, now).1;
            match Answer(f.kind)
            case None => d == None
            case Some(kind) =>
              && d.Some? && d.value.1 == addr && |d.value.0| <= MAX_DATAGRAM
              && DecodeFrame(s.sealer, d.value.0)
                 == Some(Frame(kind, f.sessionId, f.linkId, NextCounter(s, f.sessionId, f.linkId) % MASK64, 0, [],
                               PROTOCOL_VERSION))
  {
    hide EncodeFrame, DecodeFrame, Push, NextCounter, Welcome, S.Joined, S.SessionFor;
    JoinedPeer(s, f, addr, now);
    var session := S.SessionFor(s, f.sessionId, now);
    var (links, i) := S.Joined(session.links, f.linkId, addr, now);
    if Answer(f.kind).Some? {
      DecodeAfterEncode(s.sealer, Answer(f.kind).value, f.sessionId, f.linkId, links[i].counter + 1, 0, []);
      SmallMod(f.sessionId, MASK32);
    }
  }

  /** A frame the server does not welcome is never answered. */
  lemma UnwelcomeUnanswered(s: S.Server, f: Frame, addr: S.Address, now: real)
    requires !Welcome(s, f)
    ensures S.Process(s, f, addr, now).1 == None && S.Process(s, f, addr, now).0.rejected == s.rejected + 1
  {
    JoinedPeer(s, f, addr, now);
    hide S.Joined, S.SessionFor, Welcome;
  }

  /** What the client's handshake looks like to the server. */
  lemma HandshakeSent(c: T.Client, linkId: nat)
    requires linkId in c.sockets && linkId < MASK32 && c.sessionId < MASK32 && c.sockets[linkId].counter + 1 < MASK64
    ensures var (c', ds) := T.SendControl(c, linkId, HANDSHAKE);
            && c' == T.Advance(c, linkId) && |ds| == 1 && |ds[0]| <= MAX_DATAGRAM
            && DecodeFrame(c.sealer, ds[0])
               == Some(Frame(HANDSHAKE, c.sessionId, linkId, c.sockets[linkId].counter + 1, 0, [], PROTOCOL_VERSION))
  {
    hide EncodeFrame, DecodeFrame;
    DecodeAfterEncode(c.sealer, HANDSHAKE, c.sessionId, linkId, c.sockets[linkId].counter + 1, 0, []);
    SmallMod(c.sessionId, MASK32);
    SmallMod(c.sockets[linkId].counter + 1, MASK64);
  }

  /** The client after k tries whose answers never came. */
  function Tried(c: T.Client, linkId: nat, k: nat): T.Client
    requires linkId in c.sockets
    decreases k
  {
    if k == 0 then c else Tried(T.SendControl(c, linkId, HANDSHAKE).0, linkId, k - 1)
  }

  /** The frame try number k + 1 sends. */
  function Hello(c: T.Client, linkId: nat, k: nat): Frame
    requires linkId in c.sockets
  {
    Frame(HANDSHAKE, c.sessionId, linkId, c.sockets[linkId].counter + k + 1, 0, [], PROTOCOL_VERSION)
  }

  lemma {:induction false} TriedOnly(c: T.Client, linkId: nat, k: nat)
    requires linkId in c.sockets && linkId < MASK32 && c.sessionId < MASK32 && c.sockets[linkId].counter + k < MASK64
    ensures var c' := Tried(c, linkId, k);
            && linkId in c'.sockets && c'.sealer == c.sealer && c'.sessionId == c.sessionId
            && c'.sockets[linkId].counter == c.sockets[linkId].counter + k
    decreases k
  {
    if k > 0 {
      HandshakeSent(c, linkId);
      hide T.SendControl;
      TriedOnly(T.SendControl(c, linkId, HANDSHAKE).0, linkId, k - 1);
    }
  }

  /** The server answers a welcome handshake with something that ends the client's loop. */
  lemma HelloAnswered(c: T.Client, s: S.Server, linkId: nat, addr: S.Address, now: real)
    requires linkId in c.sockets && linkId < MASK32 && c.sessionId < MASK32 && s.sealer == c.sealer
    requires c.sockets[linkId].counter + 1 < MASK64 && Welcome(s, Hello(c, linkId, 0))
    ensures var ds := T.SendControl(c, linkId, HANDSHAKE).1;
            && |ds| == 1
            && var answer := S.Receive(s, ds[0], addr, now).1;
               answer.Some? && answer.value.1 == addr && T.Acknowledges(c.sealer, answer.value.0)
  {
    hide EncodeFrame, DecodeFrame, Welcome, NextCounter, S.Process, T.SendControl;
    HandshakeSent(c, linkId);
    Answered(s, Hello(c, linkId, 0), addr, now);
  }

  /** Two outcomes of the loop that differ only in k datagrams sent before. */
  ghost predicate Longer(a: (T.Client, seq<Bytes>, bool), b: (T.Client, seq<Bytes>, bool), k: nat) {
    a.0 == b.0 && |a.1| == k + |b.1| && a.2 == b.2
  }

  lemma LongerStill(a: (T.Client, seq<Bytes>, bool), b: (T.Client, seq<Bytes>, bool), c: (T.Client, seq<Bytes>, bool),
                    k: nat)
    requires Longer(a, b, 1) && Longer(b, c, k)
    ensures Longer(a, c, k + 1)
  {
  }

  function Silences(k: nat): seq<Option<Bytes>> {
    if k == 0 then [] else [None] + Silences(k - 1)
  }

  lemma SilenceFirst(k: nat, rest: seq<Option<Bytes>>)
    requires k > 0
    ensures Silences(k) + rest != [] && (Silences(k) + rest)[0] == None
    ensures (Silences(k) + rest)[1..] == Silences(k - 1) + rest
  {
  }

  lemma LongerByNone(a: (T.Client, seq<Bytes>, bool))
    ensures Longer(a, a, 0)
  {
  }

  lemma {:induction false} Unanswered(c: T.Client, linkId: nat, answers: seq<Option<Bytes>>)
    requires linkId in c.sockets && answers != [] && answers[0] == None
    requires linkId in T.SendControl(c, linkId, HANDSHAKE).0.sockets && |T.SendControl(c, linkId, HANDSHAKE).1| == 1
    ensures Longer(T.Handshake(c, linkId, answers),
                   T.Handshake(T.SendControl(c, linkId, HANDSHAKE).0, linkId, answers[1..]), 1)
  {
    hide T.SendControl;
  }

  /** Tries without an answer only use up counters and send one datagram each. */
  lemma {:induction false} AfterSilences(c: T.Client, linkId: nat, k: nat, rest: seq<Option<Bytes>>)
    requires linkId in c.sockets && linkId < MASK32 && c.sessionId < MASK32 && c.sockets[linkId].counter + k < MASK64
    ensures linkId in Tried(c, linkId, k).sockets
    ensures Longer(T.Handshake(c, linkId, Silences(k) + rest), T.Handshake(Tried(c, linkId, k), linkId, rest), k)
    decreases k
  {
    hide T.SendControl, T.Handshake, Longer;
    TriedOnly(c, linkId, k);
    if k == 0 {
      assert Silences(0) + rest == rest;
      LongerByNone(T.Handshake(c, linkId, rest));
    } else {
      HandshakeSent(c, linkId);
      var answers := Silences(k) + rest;
      SilenceFirst(k, rest);
      hide Silences;
      var c1 := T.SendControl(c, linkId, HANDSHAKE).0;
      Unanswered(c, linkId, answers);
      AfterSilences(c1, linkId, k - 1, rest);
      LongerStill(T.Handshake(c, linkId, answers), T.Handshake(c1, linkId, answers[1..]),
                  T.Handshake(Tried(c, linkId, k), linkId, rest), k - 1);
    }
  }

  lemma {:induction false} LoopEnds(c: T.Client, linkId: nat, answer: Bytes, more: seq<Option<Bytes>>)
    requires linkId in c.sockets && linkId < MASK32 && c.sessionId < MASK32 && c.sockets[linkId].counter + 1 < MASK64
    requires T.Acknowledges(c.sealer, answer)
    ensures var (c', sent, ok) := T.Handshake(c, linkId, [Some(answer)] + more);
            ok && |sent| == 1 && linkId in c'.sockets && c'.sockets[linkId].handshaken
  {
    HandshakeSent(c, linkId);
    hide T.SendControl, T.Acknowledges;
    assert ([Some(answer)] + more)[0] == Some(answer);
  }

  /**
   The handshake completes.  However many tries get no answer first, the try whose datagram reaches the server, at a
   counter the server finds fresh, and whose answer comes back ends the loop with the socket handshaken, after exactly
   that many datagrams; what the socket's own window thinks of the answer plays no part.
   */
  lemma {:induction false} HandshakeCompletes(c: T.Client, s: S.Server, linkId: nat, addr: S.Address, now: real,
                                              k: nat, more: seq<Option<Bytes>>)
    requires linkId in c.sockets && linkId < MASK32 && c.sessionId < MASK32 && s.sealer == c.sealer
    requires c.sockets[linkId].counter + k + 1 < MASK64 && Welcome(s, Hello(c, linkId, k))
    ensures linkId in Tried(c, linkId, k).sockets
    ensures var ds := T.SendControl(Tried(c, linkId, k), linkId, HANDSHAKE).1;
            && |ds| == 1
            && var answer := S.Receive(s, ds[0], addr, now).1;
               && answer.Some?
               && var (c', sent, ok) := T.Handshake(c, linkId, Silences(k) + ([Some(answer.value.0)] + more));
                  ok && |sent| == k + 1 && linkId in c'.sockets && c'.sockets[linkId].handshaken
  {
    TriedOnly(c, linkId, k);
    hide T.SendControl, T.Handshake, T.Acknowledges, Welcome, S.Receive, Tried;
    var c' := Tried(c, linkId, k);
    assert Hello(c', linkId, 0) == Hello(c, linkId, k);
    HelloAnswered(c', s, linkId, addr, now);
    var ds := T.SendControl(c', linkId, HANDSHAKE).1;
    var answer := S.Receive(s, ds[0], addr, now).1.value.0;
    AfterSilences(c, linkId, k, [Some(answer)] + more);
    LoopEnds(c', linkId, answer, more);
  }

  lemma DecodedLong(sealer: Sealer, data: Bytes)
    ensures DecodeFrame(sealer, data).Some? ==> |data| >= HEADER_LEN
  {
  }

  /** On the running datapath the same answer, if the socket's window finds it fresh, marks the socket as well. */
  lemma AnswerHeard(c: T.Client, s: S.Server, linkId: nat, addr: S.Address, t1: real, t2: real)
    requires linkId in c.sockets && linkId < MASK32 && c.sessionId < MASK32 && s.sealer == c.sealer
    requires c.sockets[linkId].counter + 1 < MASK64 && NextCounter(s, c.sessionId, linkId) < MASK64
    requires Welcome(s, Hello(c, linkId, 0)) && c.sockets[linkId].replay.Fresh(NextCounter(s, c.sessionId, linkId))
    ensures var (c1, ds) := T.SendControl(c, linkId, HANDSHAKE);
            && |ds| == 1
            && var (s1, answer) := S.Receive(s, ds[0], addr, t1);
               && answer.Some? && answer.value.1 == addr
               && T.Receive(c1, linkId, answer.value.0, t2).sockets[linkId].handshaken
  {
    hide EncodeFrame, DecodeFrame, Welcome, NextCounter, S.Process, T.SendControl;
    HandshakeSent(c, linkId);
    Answered(s, Hello(c, linkId, 0), addr, t1);
    SmallMod(NextCounter(s, c.sessionId, linkId), MASK64);
    var answer := S.Process(s, Hello(c, linkId, 0), addr, t1).1.value.0;
    DecodedLong(s.sealer, answer);
  }

  /** An answer that ends a handshake: an authentic acknowledgement or keepalive. */
  ghost predicate Acked(sealer: Sealer, answer: Option<Bytes>) {
    && answer.Some? && DecodeFrame(sealer, answer.value).Some?
    && DecodeFrame(sealer, answer.value).value.kind in {HANDSHAKE_ACK, KEEPALIVE}
  }

  /** What one try does to the client, whatever comes of it. */
  lemma TrySpends(c: T.Client, linkId: int)
    requires linkId in c.sockets && c.sessionId < MASK32
    ensures var (c', ds) := T.SendControl(c, linkId, HANDSHAKE);
            && c'.(sockets := c.sockets) == c && |ds| == (if 0 <= linkId < 0x1_0000_0000 then 1 else 0)
            && c'.sockets == c.sockets[linkId := c.sockets[linkId].(counter := c.sockets[linkId].counter + 1)]
  {
    hide EncodeFrame, DecodeFrame;
    T.ControlSent(c, linkId, HANDSHAKE);
  }

  /** The socket after `spent` tries. */
  function AfterTries(socket: T.LinkSocket, spent: nat, ok: bool): T.LinkSocket {
    socket.(counter := socket.counter + spent, handshaken := ok || socket.handshaken)
  }

  /**
   The whole handshake loop: one datagram a try, ended by the first authentic acknowledgement or keepalive and by
   nothing else, and only then is the socket marked.  A link whose number does not fit the header sends nothing.
   */
  lemma {:induction false} HandshakeExactly(c: T.Client, linkId: int, answers: seq<Option<Bytes>>)
    requires linkId in c.sockets && c.sessionId < MASK32
    ensures var (c', ds, ok) := T.Handshake(c, linkId, answers);
            var n := |ds|;
            && c'.(sockets := c.sockets) == c
            && if 0 <= linkId < 0x1_0000_0000 then
                 && n <= |answers| && (ok ==> n > 0 && Acked(c.sealer, answers[n - 1])) && (!ok ==> n == |answers|)
                 && (forall i :: 0 <= i < (if ok then n - 1 else n) ==> !Acked(c.sealer, answers[i]))
                 && c'.sockets == c.sockets[linkId := AfterTries(c.sockets[linkId], n, ok)]
               else
                 && !ok && n == 0
                 && c'.sockets
                    == c.sockets[linkId := AfterTries(c.sockets[linkId], if answers == [] then 0 else 1, false)]
    decreases |answers|
  {
    hide T.SendControl, DecodeFrame;
    if answers != [] {
      TrySpends(c, linkId);
      var (c1, ds) := T.SendControl(c, linkId, HANDSHAKE);
      assert T.Acknowledges(c.sealer, if answers[0].Some? then answers[0].value else []) && answers[0].Some?
             <==> Acked(c.sealer, answers[0]);
      if ds != [] && !Acked(c.sealer, answers[0]) { HandshakeExactly(c1, linkId, answers[1..]); }
    } else {
      assert c.sockets == c.sockets[linkId := c.sockets[linkId]];
    }
  }

  // ----- closing

  lemma SessionDistinct(s: S.Server, f: Frame, addr: S.Address, now: real)
    requires S.Keyed(s)
    ensures S.DistinctLinks(S.Joined(S.SessionFor(s, f.sessionId, now).links, f.linkId, addr, now).0)
  {
    S.SessionForDistinct(s, f.sessionId, now);
    S.JoinedDistinct(S.SessionFor(s, f.sessionId, now).links, f.linkId, addr, now);
  }

  lemma {:induction false} FindNone(links: seq<S.PeerLink>, linkId: nat)
    requires forall j :: 0 <= j < |links| ==> links[j].linkId != linkId
    ensures S.Find(links, linkId) == None
  {
  }

  /** Which uplinks the close leaves behind. */
  lemma LeftBehind(s: S.Server, f: Frame, addr: S.Address, now: real)
    requires S.Keyed(s)
    ensures var (links, i) := S.Joined(S.SessionFor(s, f.sessionId, now).links, f.linkId, addr, now);
            var left := links[..i] + links[i + 1..];
            && S.Find(left, f.linkId) == None
            && (left == [] <==>
                  !(f.sessionId in s.sessions
                    && exists l :: l in s.sessions[f.sessionId].links && l.linkId != f.linkId))
  {
    SessionDistinct(s, f, addr, now);
    var session := S.SessionFor(s, f.sessionId, now);
    var (links, i) := S.Joined(session.links, f.linkId, addr, now);
    var left := links[..i] + links[i + 1..];
    forall j | 0 <= j < |left| ensures left[j].linkId != f.linkId {
      assert left[j] == links[if j < i then j else j + 1];
    }
    FindNone(left, f.linkId);
    if left != [] {
      var l := links[if i == 0 then 1 else 0];
      assert l in session.links && l.linkId != f.linkId;
    }
    forall l | l in session.links && l.linkId != f.linkId ensures left != [] {
      var k :| 0 <= k < |session.links| && session.links[k] == l;
      assert links[k] == l && k != i;
    }
  }

  lemma DistinctLeft(links: seq<S.PeerLink>, i: nat)
    requires S.DistinctLinks(links) && i < |links|
    ensures S.DistinctLinks(links[..i] + links[i + 1..])
  {
    var left := links[..i] + links[i + 1..];
    assert forall j :: 0 <= j < |left| ==> left[j] == links[if j < i then j else j + 1];
  }

  lemma {:induction false} PeerLeftBehind(s: S.Server, f: Frame, addr: S.Address, now: real, l: nat)
    requires S.Keyed(s) && l != f.linkId
    ensures var (links, i) := S.Joined(S.SessionFor(s, f.sessionId, now).links, f.linkId, addr, now);
            var left := links[..i] + links[i + 1..];
            (match S.Find(left, l) case None => None case Some(k) => Some(left[k])) == Peer(s, f.sessionId, l)
  {
    var session := S.SessionFor(s, f.sessionId, now);
    var (links, i) := S.Joined(session.links, f.linkId, addr, now);
    var left := links[..i] + links[i + 1..];
    SessionDistinct(s, f, addr, now);
    if S.Find(session.links, l) == None {
      forall j | 0 <= j < |left| ensures left[j].linkId != l {
        assert left[j] == links[if j < i then j else j + 1];
      }
      FindNone(left, l);
    } else {
      var k := S.Find(session.links, l).value;
      assert links[k] == session.links[k] && k != i;
      var k' := if k < i then k else k - 1;
      assert left[k'] == links[k];
      DistinctLeft(links, i);
      S.FindDistinct(left, k');
    }
  }

  /**
   A welcome close takes its uplink out of the session, and the session out of the table exactly when that was its
   last one.  The other uplinks, their counters and the other sessions stay as they were, and nothing is answered.
   */
  lemma CloseLeaves(s: S.Server, f: Frame, addr: S.Address, now: real)
    requires S.Keyed(s) && f.kind == CLOSE && Welcome(s, f)
    ensures var (s', d) := S.Process(s, f, addr, now);
            && d == None && Peer(s', f.sessionId, f.linkId) == None
            && (f.sessionId in s'.sessions <==>
                  f.sessionId in s.sessions && exists l :: l in s.sessions[f.sessionId].links && l.linkId != f.linkId)
            && (forall l: nat :: l != f.linkId ==> Peer(s', f.sessionId, l) == Peer(s, f.sessionId, l))
            && (forall id :: id != f.sessionId ==>
                  (id in s'.sessions <==> id in s.sessions) && (id in s.sessions ==> s'.sessions[id] == s.sessions[id]))
  {
    hide Welcome, S.Joined, S.SessionFor;
    JoinedPeer(s, f, addr, now);
    SessionDistinct(s, f, addr, now);
    var session := S.SessionFor(s, f.sessionId, now);
    var (links, i) := S.Joined(session.links, f.linkId, addr, now);
    var left := links[..i] + links[i + 1..];
    LeftBehind(s, f, addr, now);
    var s' := S.Process(s, f, addr, now).0;
    assert f.sessionId in s'.sessions ==> s'.sessions[f.sessionId].links == left by {
      var peer := links[i];
      var heard := links[i := peer.(replay := peer.replay.Record(f.counter), lastSeen := now, rx := peer.rx + 1)];
      assert heard[..i] + heard[i + 1..] == left;
    }
    forall l: nat | l != f.linkId ensures Peer(s', f.sessionId, l) == Peer(s, f.sessionId, l) {
      PeerLeftBehind(s, f, addr, now, l);
    }
  }

  // ----- duplicates

  /** A datagram the client gets twice changes nothing the second time but the count of rejects. */
  lemma SecondCopyRejected(c: T.Client, linkId: int, data: Bytes, t1: real, t2: real)
    requires linkId in c.sockets
    ensures var c1 := T.Receive(c, linkId, data, t1);
            && linkId in c1.sockets
            && T.Receive(c1, linkId, data, t2) == if |data| < HEADER_LEN then c1 else c1.(rejected := c1.rejected + 1)
  {
    hide DecodeFrame, Push;
  }

  /** A close that takes its uplink away; any other frame leaves the uplink in place. */
  predicate Closes(s: S.Server, f: Frame) {
    f.kind == CLOSE && Welcome(s, f)
  }

  lemma StillUnwelcome(s: S.Server, f: Frame, i: nat)
    requires f.sessionId in s.sessions && S.Find(s.sessions[f.sessionId].links, f.linkId) == Some(i)
    requires !s.sessions[f.sessionId].links[i].replay.Fresh(f.counter)
    ensures !Welcome(s, f) && Peer(s, f.sessionId, f.linkId) == Some(s.sessions[f.sessionId].links[i])
  {
  }

  /** After a genuine frame that closes nothing, the uplink is stored under the sender's address, its counter spent. */
  lemma Remembered(s: S.Server, f: Frame, addr: S.Address, now: real)
    requires !Closes(s, f) && S.Keyed(s)
    ensures var s' := S.Process(s, f, addr, now).0;
            && Peer(s', f.sessionId, f.linkId).Some? && Peer(s', f.sessionId, f.linkId).value.addr == addr
            && !Welcome(s', f)
  {
    hide EncodeFrame, Push, DecodeFrame, S.Joined, S.SessionFor, S.Keyed;
    JoinedPeer(s, f, addr, now);
    SessionDistinct(s, f, addr, now);
    var session := S.SessionFor(s, f.sessionId, now).(sessionId := f.sessionId);
    var (links, i) := S.Joined(session.links, f.linkId, addr, now);
    hide Welcome;
    var s' := S.Process(s, f, addr, now).0;
    assert f.sessionId in s'.sessions;
    var after := s'.sessions[f.sessionId].links;
    assert |after| == |links| && forall j :: 0 <= j < |links| ==> after[j].linkId == links[j].linkId;
    S.FindDistinct(after, i);
    assert after[i].addr == addr && !after[i].replay.Fresh(f.counter);
    StillUnwelcome(s', f, i);
  }

  /** A frame that comes again from where its uplink already is only counts as one more reject. */
  lemma KnownCopyInert(s: S.Server, f: Frame, addr: S.Address, now: real)
    requires S.Keyed(s) && !Welcome(s, f)
    requires Peer(s, f.sessionId, f.linkId).Some? && Peer(s, f.sessionId, f.linkId).value.addr == addr
    ensures S.Process(s, f, addr, now) == (s.(rejected := s.rejected + 1), None)
  {
    UnwelcomeUnanswered(s, f, addr, now);
    JoinedPeer(s, f, addr, now);
    hide Welcome;
    var session := s.sessions[f.sessionId];
    assert S.Joined(session.links, f.linkId, addr, now).0 == session.links;
    assert s.sessions[f.sessionId := session] == s.sessions;
  }

  lemma ClosedAtOnce(s: S.Server, f: Frame, addr: S.Address, now: real)
    requires S.Keyed(s) && f.kind == CLOSE && f.counter != 0 && Peer(s, f.sessionId, f.linkId) == None
    ensures S.Process(s, f, addr, now) == (s, None)
  {
    var session := S.SessionFor(s, f.sessionId, now);
    var (links, i) := S.Joined(session.links, f.linkId, addr, now);
    assert i == |session.links| && links[i].replay == NEW_WINDOW;
    var peer := links[i];
    var heard := links[i := peer.(replay := peer.replay.Record(f.counter), lastSeen := now, rx := peer.rx + 1)];
    assert heard[..i] + heard[i + 1..] == session.links;
    assert f.sessionId in s.sessions ==> s.sessions[f.sessionId := s.sessions[f.sessionId]] == s.sessions;
    assert f.sessionId !in s.sessions ==> s.sessions - {f.sessionId} == s.sessions;
  }

  /**
   Closing an uplink the server does not know joins it and takes it away again: nothing is left of it.  The one
   exception is counter 0, which no window accepts: then the uplink stays joined, and the frame counts as a reject.
   */
  lemma CloseOfUnknown(s: S.Server, f: Frame, addr: S.Address, now: real)
    requires S.Keyed(s) && f.kind == CLOSE && Peer(s, f.sessionId, f.linkId) == None
    ensures f.counter != 0 ==> S.Process(s, f, addr, now) == (s, None)
    ensures f.counter == 0 ==>
              var (s', d) := S.Process(s, f, addr, now);
              d == None && s'.rejected == s.rejected + 1 && Peer(s', f.sessionId, f.linkId).Some?
  {
    if f.counter == 0 {
      UnwelcomeUnanswered(s, f, addr, now);
      Remembered(s, f, addr, now);
    } else {
      ClosedAtOnce(s, f, addr, now);
    }
  }

  lemma Closed(s: S.Server, f: Frame, addr: S.Address, now: real)
    requires S.Keyed(s) && Closes(s, f)
    ensures f.kind == CLOSE && f.counter != 0
    ensures Peer(S.Process(s, f, addr, now).0, f.sessionId, f.linkId) == None
  {
    CloseLeaves(s, f, addr, now);
    hide S.Process, S.Keyed, Peer;
  }

  lemma SameSealer(s: S.Server, f: Frame, addr: S.Address, now: real)
    ensures S.Process(s, f, addr, now).0.sealer == s.sealer
  {
    hide Push, EncodeFrame, S.Joined, S.SendTo;
  }

  /**
   A datagram the server gets twice from the same address changes nothing the second time but the count of
   rejects, and a second copy of a close that took effect not even that: nothing is written, nothing is answered.
   */
  lemma SecondCopyInert(s: S.Server, data: Bytes, addr: S.Address, t1: real, t2: real)
    requires S.Keyed(s) && |data| <= MAX_DATAGRAM
    ensures var s1 := S.Receive(s, data, addr, t1).0;
            var closed := DecodeFrame(s.sealer, data).Some? && Closes(s, DecodeFrame(s.sealer, data).value);
            S.Receive(s1, data, addr, t2) == (if closed then s1 else s1.(rejected := s1.rejected + 1), None)
  {
    hide DecodeFrame, S.Process, Closes, Welcome, S.Keyed, Peer;
    var s1 := S.Receive(s, data, addr, t1).0;
    if DecodeFrame(s.sealer, data).Some? {
      var f := DecodeFrame(s.sealer, data).value;
      S.ProcessKeyed(s, f, addr, t1);
      SameSealer(s, f, addr, t1);
      if Closes(s, f) {
        Closed(s, f, addr, t1);
        CloseOfUnknown(s1, f, addr, t2);
      } else {
        Remembered(s, f, addr, t1);
        KnownCopyInert(s1, f, addr, t2);
      }
    }
  }

  // ----- return traffic

  lemma {:induction false} SkipsSilent(s: S.Server, ranked: seq<nat>, k: nat, packet: Bytes, now: real)
    requires k <= |ranked| && forall i :: 0 <= i < |ranked| ==> ranked[i] in s.sessions
    requires forall i :: 0 <= i < k ==> S.Living(s.sessions[ranked[i]].links, now) == []
    ensures S.Dispatch(s, ranked, packet, now) == S.Dispatch(s, ranked[k..], packet, now)
    decreases k
  {
    if k == 0 {
      assert ranked[k..] == ranked;
    } else {
      assert ranked[1..][k - 1..] == ranked[k..];
      SkipsSilent(s, ranked[1..], k - 1, packet, now);
    }
  }

  lemma {:induction false} ReturnSession(s: S.Server, session: S.Session, packet: Bytes, now: real)
    requires S.Living(session.links, now) != []
    ensures S.ReturnLink(session, now).Some? && S.Return(s, session, packet, now).0.sessionId == session.sessionId
  {
    hide EncodeFrame, S.Living;
  }

  lemma {:induction false} DispatchLive(s: S.Server, ranked: seq<nat>, packet: Bytes, now: real)
    requires ranked != [] && forall i :: 0 <= i < |ranked| ==> ranked[i] in s.sessions
    requires S.Keyed(s) && S.Living(s.sessions[ranked[0]].links, now) != []
    ensures S.ReturnLink(s.sessions[ranked[0]], now).Some?
    ensures var (s', d) := S.Dispatch(s, ranked, packet, now);
            && d == S.Return(s, s.sessions[ranked[0]], packet, now).1
            && s'.sessions - {ranked[0]} == s.sessions - {ranked[0]}
  {
    hide S.Return;
    ReturnSession(s, s.sessions[ranked[0]], packet, now);
  }

  lemma SameLink(links: seq<S.PeerLink>, i: nat, l: S.PeerLink)
    requires S.DistinctLinks(links) && i < |links| && l in links && links[i].linkId == l.linkId
    ensures links[i] == l
  {
    var k :| 0 <= k < |links| && links[k] == l;
  }

  lemma {:induction false} ReturnCarries(s: S.Server, id: nat, packet: Bytes, now: real)
    requires S.Keyed(s) && |packet| <= MAX_PAYLOAD && id < MASK32
    requires id in s.sessions && S.Living(s.sessions[id].links, now) != []
    requires s.sessions[id].seqNo + 1 < MASK64
    requires forall l :: l in s.sessions[id].links ==> l.linkId < MASK32 && l.counter + 1 < MASK64
    ensures s.sessions[id].sessionId == id && S.ReturnLink(s.sessions[id], now).Some?
    ensures var (l, d) := (S.ReturnLink(s.sessions[id], now).value, S.Return(s, s.sessions[id], packet, now).1);
            && d.Some? && l in S.Living(s.sessions[id].links, now) && l.addr == d.value.1
            && DecodeFrame(s.sealer, d.value.0)
               == Some(Frame(DATA, id, l.linkId, l.counter + 1, s.sessions[id].seqNo + 1, packet, PROTOCOL_VERSION))
  {
    hide EncodeFrame, DecodeFrame, S.Living;
    var session := s.sessions[id];
    S.ReturnLinkFound(session, now);
    var l := S.ReturnLink(session, now).value;
    var i := S.Find(session.links, l.linkId).value;
    SameLink(session.links, i, l);
    DecodeAfterEncode(s.sealer, DATA, id, l.linkId, l.counter + 1, session.seqNo + 1, packet);
    SmallMod(id, MASK32);
    SmallMod(l.counter + 1, MASK64);
    SmallMod(session.seqNo + 1, MASK64);
  }

  /**
   Return traffic goes to the best-ranked session that has a live uplink, over one of its live uplinks, at that
   uplink's address, as the session's next numbered packet; no other session changes.
   */
  lemma {:induction false} DispatchServesFirstLive(s: S.Server, ranked: seq<nat>, k: nat, packet: Bytes, now: real)
    requires S.Keyed(s) && |packet| <= MAX_PAYLOAD
    requires k < |ranked| && forall i :: 0 <= i < |ranked| ==> ranked[i] in s.sessions
    requires forall i :: 0 <= i < k ==> S.Living(s.sessions[ranked[i]].links, now) == []
    requires ranked[k] < MASK32 && s.sessions[ranked[k]].seqNo + 1 < MASK64
    requires S.Living(s.sessions[ranked[k]].links, now) != []
    requires forall l :: l in s.sessions[ranked[k]].links ==> l.linkId < MASK32 && l.counter + 1 < MASK64
    ensures var (s', d) := S.Dispatch(s, ranked, packet, now);
            var (id, session) := (ranked[k], s.sessions[ranked[k]]);
            && d.Some? && s'.sessions - {id} == s.sessions - {id}
            && exists l :: l in S.Living(session.links, now) && l.addr == d.value.1
                 && DecodeFrame(s.sealer, d.value.0)
                    == Some(Frame(DATA, id, l.linkId, l.counter + 1, session.seqNo + 1, packet, PROTOCOL_VERSION))
  {
    hide S.Dispatch, S.Return, S.ReturnLink, DecodeFrame, S.Keyed, S.Living;
    SkipsSilent(s, ranked, k, packet, now);
    DispatchLive(s, ranked[k..], packet, now);
    ReturnCarries(s, ranked[k], packet, now);
  }

  /**
   Sending over one uplink touches that uplink only: its counter is spent whether or not anything can be encoded, and
   its count of packets sent grows with the datagram, which goes to its current address.
   */
  lemma SendToExactly(s: S.Server, session: S.Session, i: nat, kind: FrameType, seqNo: nat, payload: Bytes)
    requires i < |session.links|
    ensures var (session', d) := S.SendTo(s, session, i, kind, seqNo, payload);
            var (p, p') := (session.links[i], session'.links[i]);
            && session'.(links := session.links) == session && |session'.links| == |session.links|
            && (forall j :: 0 <= j < |session.links| && j != i ==> session'.links[j] == session.links[j])
            && p'.(counter := p.counter, tx := p.tx) == p && p'.counter == p.counter + 1
            && (d.Some? <==> |payload| <= 1600 && p.linkId < 0x1_0000_0000)
            && p'.tx == p.tx + (if d.Some? then 1 else 0)
            && (d.Some? ==> d.value.1 == p.addr)
  {
    hide PackHeader;
  }

  /** The first frame of a session opens it, with one uplink, at the time and address it came from. */
  lemma SessionOpens(s: S.Server, f: Frame, addr: S.Address, t: real)
    requires f.sessionId !in s.sessions && f.counter != 0 && f.kind != CLOSE
    ensures var s' := S.Process(s, f, addr, t).0;
            && f.sessionId in s'.sessions
            && var session, empty := s'.sessions[f.sessionId], NewBuffer(s.reorderMs, 4096);
               && session.sessionId == f.sessionId && session.created == t && session.seqNo == 0 && session.cursor == 0
               && (session.reorder, session.released)
                  == (if f.kind == DATA && f.payload != [] then Push(empty, f.seqNo, f.payload, t) else (empty, []))
               && |session.links| == 1
               && var p := session.links[0];
                  && p.linkId == f.linkId && p.addr == addr && p.lastSeen == t && p.rx == 1
                  && p.counter == (if Answer(f.kind).Some? then 1 else 0)
  {
    hide EncodeFrame, Push;
    assert forall out: seq<Entry> :: [] + out == out;
  }

  // ----- the client's sockets

  /**
   A fresh frame marks its own socket as handshaken, unless it is a close, which unmarks it; a stale one, and one that
   does not authenticate, mark nothing and are counted.
   */
  lemma HeardMarks(c: T.Client, linkId: int, data: Bytes, now: real)
    requires linkId in c.sockets && |data| >= HEADER_LEN
    ensures var c', f := T.Receive(c, linkId, data, now), DecodeFrame(c.sealer, data);
            var isFresh := f.Some? && c.sockets[linkId].replay.Fresh(f.value.counter);
            && linkId in c'.sockets && c'.sockets - {linkId} == c.sockets - {linkId}
            && c'.sockets[linkId].counter == c.sockets[linkId].counter
            && c'.sockets[linkId].handshaken
               == (if isFresh then f.value.kind != CLOSE else c.sockets[linkId].handshaken)
            && c'.rejected == c.rejected + if isFresh then 0 else 1
  {
    hide DecodeFrame, Push;
  }

  /** A rebound link starts over: nothing sent, nothing received, not handshaken; the other sockets stay. */
  lemma Rebound(c: T.Client, linkId: int)
    ensures var c' := T.Bind(c, linkId);
            && c'.(sockets := c.sockets) == c && c'.sockets - {linkId} == c.sockets - {linkId}
            && linkId in c'.sockets
            && c'.sockets[linkId].counter == 0 && !c'.sockets[linkId].handshaken
            && forall n: nat :: c'.sockets[linkId].replay.Fresh(n) <==> n != 0
  {
  }
}
