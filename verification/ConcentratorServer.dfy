/**
 The server object of turbobond/bond/server.py.  Sessions and their links are held by value in the sessions map, so
 every change is stored back; `sent` logs the datagrams handed to the socket.
 */
module ConcentratorServing {
  import opened Bytes
  import opened Crypto
  import opened Protocol
  import opened Replay
  import opened Resequencer
  import opened Concentrator

  lemma {:induction false} LivingSnoc(links: seq<PeerLink>, l: PeerLink, now: real)
    ensures Living(links + [l], now) == Living(links, now) + if Alive(l, now) then [l] else []
    decreases |links|
  {
    if links == [] {
      assert [] + [l] == [l] && [l][1..] == [];
    } else {
      assert (links + [l])[1..] == links[1..] + [l] && (links + [l])[0] == links[0];
      LivingSnoc(links[1..], l, now);
    }
  }

  class ConcentratorServer {
    const sealer: Sealer
    const reorderMs: real
    var sessions: map<nat, Session>
    var rejected: nat
    var sent: seq<(Bytes, Address)>

    function View(): Server
      reads this
    {
      Server(sealer, reorderMs, sessions, rejected)
    }

    constructor (sealer: Sealer, reorderMs: real := 90.0)
      ensures View() == Server(sealer, reorderMs, map[], 0) && sent == []
    {
      this.sealer, this.reorderMs := sealer, reorderMs;
      sessions, rejected, sent := map[], 0, [];
    }

    /** What the socket was asked to send. */
    function Outgoing(d: Option<(Bytes, Address)>): seq<(Bytes, Address)> {
      match d case None => [] case Some(p) => [p]
    }

    method DatagramReceived(data: Bytes, addr: Address, now: real)
      modifies this
      ensures var (s, d) := Receive(old(View()), data, addr, now);
              View() == s && sent == old(sent) + Outgoing(d)
    {
      if |data| <= MAX_DATAGRAM {
        HandleDatagram(data, addr, now);
      }
    }

    method HandleDatagram(data: Bytes, addr: Address, now: real)
      modifies this
      ensures var (s, d) := Handle(old(View()), data, addr, now);
              View() == s && sent == old(sent) + Outgoing(d)
    {
      hide DecodeFrame, EncodeFrame, Push, Joined;
      var decoded := DecodeFrame(sealer, data);
      if decoded.None? {
        rejected := rejected + 1;
        return;
      }
      var f := decoded.value;
      var session := SessionFor(View(), f.sessionId, now).(sessionId := f.sessionId);
      var (links, i) := Joined(session.links, f.linkId, addr, now);
      session := session.(links := links);
      var peer := links[i];
      if !peer.replay.Fresh(f.counter) {
        sessions := sessions[f.sessionId := session];
        rejected := rejected + 1;
        return;
      }
      peer := peer.(replay := peer.replay.Record(f.counter), lastSeen := now, rx := peer.rx + 1);
      session := session.(links := session.links[i := peer]);
      Dispose(session, i, f, now);
    }

    /** The branches of `handle_datagram` on the frame type. */
    method Dispose(session0: Session, i: nat, f: Frame, now: real)
      requires i < |session0.links| && session0.sessionId == f.sessionId
      modifies this
      ensures var (s, d) := Deliver(old(View()), session0, i, f, now);
              View() == s && sent == old(sent) + Outgoing(d)
    {
      hide EncodeFrame, Push;
      var session := session0;
      if f.kind == HANDSHAKE {
        session := SendControl(session, i, HANDSHAKE_ACK);
        sessions := sessions[session.sessionId := session];
      } else if f.kind == KEEPALIVE {
        session := SendControl(session, i, KEEPALIVE);
        sessions := sessions[session.sessionId := session];
      } else if f.kind == CLOSE {
        session := session.(links := session.links[..i] + session.links[i + 1..]);
        if session.links == [] {
          sessions := sessions - {f.sessionId};
        } else {
          sessions := sessions[f.sessionId := session];
        }
      } else if f.kind == DATA && f.payload != [] {
        var (buffer, out) := Push(session.reorder, f.seqNo, f.payload, now);
        session := session.(reorder := buffer);
        session := WriteAll(session, out);
        sessions := sessions[f.sessionId := session];
      } else {
        sessions := sessions[f.sessionId := session];
      }
    }

    /** `for packet in ...: device.write(packet)`, logged on the session. */
    method WriteAll(session: Session, out: seq<Entry>) returns (session': Session)
      ensures session' == session.(released := session.released + out)
    {
      session' := session;
      var k := 0;
      while k < |out|
        invariant 0 <= k <= |out|
        invariant session' == session.(released := session.released + out[..k])
      {
        session' := session'.(released := session'.released + [out[k]]);
        assert out[..k + 1] == out[..k] + [out[k]];
        k := k + 1;
      }
      assert out[..k] == out;
    }

    method SendControl(session: Session, i: nat, kind: FrameType) returns (session': Session)
      requires i < |session.links|
      modifies `sent
      ensures var (s', d) := SendTo(View(), session, i, kind, 0, []); session' == s' && sent == old(sent) + Outgoing(d)
    {
      session' := Send(session, i, kind, 0, []);
    }

    method Send(session: Session, i: nat, kind: FrameType, seqNo: nat, payload: Bytes) returns (session': Session)
      requires i < |session.links|
      modifies `sent
      ensures var (s', d) := SendTo(View(), session, i, kind, seqNo, payload);
              session' == s' && sent == old(sent) + Outgoing(d)
    {
      var peer := session.links[i];
      peer := peer.(counter := peer.counter + 1);
      var datagram := EncodeFrame(sealer, kind, session.sessionId, peer.linkId, peer.counter, seqNo, payload);
      hide EncodeFrame;
      if datagram.Ok? {
        sent := sent + [(datagram.value, peer.addr)];
        peer := peer.(tx := peer.tx + 1);
      }
      session' := session.(links := session.links[i := peer]);
    }

    /** `_dispatch_downstream`; `ranked` lists the stored sessions newest first. */
    method DispatchDownstream(ranked: seq<nat>, packet: Bytes, now: real)
      requires forall i :: 0 <= i < |ranked| ==> ranked[i] in sessions
      modifies this
      ensures var (s, d) := Dispatch(old(View()), ranked, packet, now);
              View() == s && sent == old(sent) + Outgoing(d)
    {
      hide EncodeFrame;
      var k := 0;
      while k < |ranked|
        invariant 0 <= k <= |ranked| && View() == old(View()) && sent == old(sent)
        invariant Dispatch(View(), ranked, packet, now) == Dispatch(View(), ranked[k..], packet, now)
      {
        var session := sessions[ranked[k]];
        assert ranked[k..][0] == ranked[k] && ranked[k..][1..] == ranked[k + 1..];
        var picked := ReturnLink(session, now);
        if picked.None? {
          k := k + 1;
          continue;
        }
        ReturnLinkFound(session, now);
        var i := Find(session.links, picked.value.linkId).value;
        session := session.(cursor := session.cursor + 1, seqNo := session.seqNo + 1);
        session := Send(session, i, DATA, session.seqNo, packet);
        sessions := sessions[session.sessionId := session];
        return;
      }
    }

    /** One pass of `_reorder_ticker`. */
    method ReorderTick(now: real)
      modifies `sessions
      ensures View() == TickAll(old(View()), now)
    {
      hide Tick;
      ghost var before := sessions;
      var ids := sessions.Keys;
      while ids != {}
        invariant ids <= before.Keys == sessions.Keys
        invariant forall id :: id in before ==>
                    sessions[id] == if id in ids then before[id] else TickSession(before[id], now)
        decreases ids
      {
        var id :| id in ids;
        var (buffer, out) := Tick(sessions[id].reorder, now);
        var session := WriteAll(sessions[id].(reorder := buffer), out);
        sessions := sessions[id := session];
        ids := ids - {id};
      }
    }

    /** One pass of `_reaper`. */
    method ReapOnce(now: real)
      modifies `sessions
      ensures View() == Reap(old(View()), now)
    {
      ghost var before := sessions;
      var ids := sessions.Keys;
      while ids != {}
        invariant ids <= before.Keys && sessions.Keys <= before.Keys
        invariant forall id :: id in ids ==> id in sessions && sessions[id] == before[id]
        invariant forall id :: id in before.Keys - ids ==>
                    (id in sessions <==> Living(before[id].links, now) != [])
                    && (id in sessions ==> sessions[id] == before[id].(links := Living(before[id].links, now)))
        decreases ids
      {
        var id :| id in ids;
        var links := Survivors(sessions[id].links, now);
        if links == [] {
          sessions := sessions - {id};
        } else {
          sessions := sessions[id := sessions[id].(links := links)];
        }
        ids := ids - {id};
      }
    }

    method Survivors(links: seq<PeerLink>, now: real) returns (left: seq<PeerLink>)
      ensures left == Living(links, now)
    {
      left := [];
      var k := 0;
      while k < |links|
        invariant 0 <= k <= |links| && left == Living(links[..k], now)
      {
        LivingSnoc(links[..k], links[k], now);
        assert links[..k + 1] == links[..k] + [links[k]];
        if Alive(links[k], now) {
          left := left + [links[k]];
        }
        k := k + 1;
      }
      assert links[..k] == links;
    }
  }
}
