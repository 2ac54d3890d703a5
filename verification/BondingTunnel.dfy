/** The client object of turbobond/bond/tunnel.py.  Sockets are held by value; `wire` logs what was handed to them. */
module BondTunnelling {
  import opened Bytes
  import opened Crypto
  import opened Protocol
  import opened Replay
  import opened Resequencer
  import opened Tunnel

  lemma {:induction false} NoTries(c: Client, linkId: int, answers: seq<Option<Bytes>>)
    requires linkId in c.sockets && answers == []
    ensures Tunnel.Handshake(c, linkId, answers) == (c, [], false)
  {
  }

  /** One turn of the handshake loop. */
  lemma {:induction false} OneTry(c: Client, linkId: int, answers: seq<Option<Bytes>>)
    requires linkId in c.sockets && answers != []
    ensures var (c1, ds) := Tunnel.SendControl(c, linkId, HANDSHAKE);
            && linkId in c1.sockets && c1.sealer == c.sealer
            && Tunnel.Handshake(c, linkId, answers)
               == if ds == [] then (c1, [], false)
                  else if answers[0].Some? && Acknowledges(c.sealer, answers[0].value) then
                    (Handshaken(c1, linkId), ds, true)
                  else
                    var (c2, more, ok) := Tunnel.Handshake(c1, linkId, answers[1..]);
                    (c2, ds + more, ok)
  {
    hide EncodeFrame, Acknowledges;
  }

  /** The same for the handshake loop, with its verdict. */
  ghost predicate Continues(goal: (Client, seq<Bytes>, bool), rest: (Client, seq<Bytes>, bool), ds: seq<Bytes>) {
    goal.0 == rest.0 && goal.1 == ds + rest.1 && goal.2 == rest.2
  }

  /** What is on the wire so far, followed by what the rest of the loop will add, is what the whole loop adds. */
  ghost predicate Finishes(goal: (Client, seq<Bytes>), rest: (Client, seq<Bytes>), ds: seq<Bytes>) {
    goal.0 == rest.0 && goal.1 == ds + rest.1
  }

  class BondingTunnel {
    const sealer: Sealer
    const sessionId: nat
    var seqNo: nat
    var sockets: map<int, LinkSocket>
    var reorder: Buffer
    var dropped: nat
    var rejected: nat
    var written: seq<Entry>
    var wire: seq<Bytes>

    function View(): Client
      reads this
    {
      Client(sealer, sessionId, seqNo, sockets, reorder, dropped, rejected, written)
    }

    constructor (sealer: Sealer, sessionId: nat, reorderMs: real, capacity: int)
      ensures View() == Client(sealer, sessionId, 0, map[], NewBuffer(reorderMs, capacity), 0, 0, []) && wire == []
    {
      this.sealer, this.sessionId := sealer, sessionId;
      seqNo, sockets, dropped, rejected, written, wire := 0, map[], 0, 0, [], [];
      reorder := NewBuffer(reorderMs, capacity);
    }

    method NextSeq() returns (n: nat)
      modifies `seqNo
      ensures n == seqNo == old(seqNo) + 1
    {
      seqNo := seqNo + 1;
      n := seqNo;
    }

    method NextCounter(linkId: int) returns (n: nat)
      requires linkId in sockets
      modifies `sockets
      ensures View() == Tunnel.Advance(old(View()), linkId)
      ensures n == sockets[linkId].counter == old(sockets[linkId].counter) + 1
    {
      var s := sockets[linkId];
      sockets := sockets[linkId := s.(counter := s.counter + 1)];
      n := sockets[linkId].counter;
    }

    /** `_send_packet` with the scheduler's choice; returning early stands for the exception leaving the method. */
    method SendPacket(packet: Bytes, chosen: seq<int>)
      modifies this
      ensures var (c, ds) := Tunnel.SendPacket(old(View()), chosen, packet); View() == c && wire == old(wire) + ds
    {
      hide EncodeFrame;
      if chosen == [] {
        dropped := dropped + 1;
        return;
      }
      var number := NextSeq();
      ghost var goal := SendCopies(View(), chosen, number, packet);
      var k := 0;
      while k < |chosen|
        invariant 0 <= k <= |chosen| && old(wire) <= wire
        invariant Finishes(goal, SendCopies(View(), chosen[k..], number, packet), wire[|old(wire)|..])
      {
        var id := chosen[k];
        assert chosen[k..][0] == id && chosen[k..][1..] == chosen[k + 1..];
        if id !in sockets {
          k := k + 1;
          continue;
        }
        var counter := NextCounter(id);
        var datagram := EncodeFrame(sealer, DATA, sessionId, id, counter, number, packet);
        if datagram.Err? {
          return;
        }
        assert (wire + [datagram.value])[|old(wire)|..] == wire[|old(wire)|..] + [datagram.value];
        wire := wire + [datagram.value];
        k := k + 1;
      }
      assert chosen[k..] == [];
    }

    method SendControl(linkId: int, kind: FrameType)
      modifies this
      ensures var (c, ds) := Tunnel.SendControl(old(View()), linkId, kind); View() == c && wire == old(wire) + ds
    {
      hide EncodeFrame;
      if linkId !in sockets {
        return;
      }
      var counter := NextCounter(linkId);
      var datagram := EncodeFrame(sealer, kind, sessionId, linkId, counter, 0, []);
      if datagram.Ok? {
        wire := wire + [datagram.value];
      }
    }

    /** `_handshake_link`; `answers` are what `sock_recv` returns on each try, None when it times out. */
    method HandshakeLink(linkId: int, answers: seq<Option<Bytes>>) returns (ok: bool)
      requires linkId in sockets && |answers| == 3
      modifies this
      ensures var (c, ds, done) := Tunnel.Handshake(old(View()), linkId, answers);
              View() == c && wire == old(wire) + ds && ok == done
    {
      hide EncodeFrame, DecodeFrame, Acknowledges, Tunnel.Handshake, Tunnel.SendControl;
      ghost var goal := Tunnel.Handshake(View(), linkId, answers);
      var k := 0;
      ok := false;
      assert answers[0..] == answers && wire[|old(wire)|..] == [];
      while k < HANDSHAKE_RETRIES
        invariant 0 <= k <= HANDSHAKE_RETRIES && linkId in sockets && !ok && old(wire) <= wire
        invariant Continues(goal, Tunnel.Handshake(View(), linkId, answers[k..]), wire[|old(wire)|..])
      {
        OneTry(View(), linkId, answers[k..]);
        ghost var before := View();
        var sent := wire;
        SendControl(linkId, HANDSHAKE);
        assert wire[|old(wire)|..] == sent[|old(wire)|..] + Tunnel.SendControl(before, linkId, HANDSHAKE).1;
        if |wire| == |sent| {
          return;
        }
        if answers[k].Some? && Acknowledges(sealer, answers[k].value) {
          sockets := sockets[linkId := sockets[linkId].(handshaken := true)];
          return true;
        }
        k := k + 1;
      }
      NoTries(View(), linkId, answers[k..]);
    }

    method BindLink(linkId: int)
      modifies `sockets
      ensures View() == Bind(old(View()), linkId)
    {
      sockets := sockets[linkId := NEW_SOCKET];
    }

    method HandleDatagram(linkId: int, data: Bytes, now: real)
      requires linkId in sockets
      modifies this
      ensures View() == Handle(old(View()), linkId, data, now) && wire == old(wire)
    {
      hide DecodeFrame, Push;
      var decoded := DecodeFrame(sealer, data);
      if decoded.None? {
        rejected := rejected + 1;
        return;
      }
      var f := decoded.value;
      var socket := sockets[linkId];
      if !socket.replay.Fresh(f.counter) {
        rejected := rejected + 1;
        return;
      }
      socket := socket.(replay := socket.replay.Record(f.counter), handshaken := true);
      if f.kind == DATA && f.payload != [] {
        var (buffer, out) := Push(reorder, f.seqNo, f.payload, now);
        reorder := buffer;
        WriteAll(out);
      } else if f.kind == CLOSE {
        socket := socket.(handshaken := false);
      }
      sockets := sockets[linkId := socket];
    }

    method WriteAll(out: seq<Entry>)
      modifies `written
      ensures written == old(written) + out
    {
      var k := 0;
      while k < |out|
        invariant 0 <= k <= |out| && written == old(written) + out[..k]
      {
        assert out[..k + 1] == out[..k] + [out[k]];
        written := written + [out[k]];
        k := k + 1;
      }
      assert out[..k] == out;
    }

    method ReorderTick(now: real)
      modifies this
      ensures View() == TickReorder(old(View()), now) && wire == old(wire)
    {
      hide Tick;
      var (buffer, out) := Tick(reorder, now);
      reorder := buffer;
      WriteAll(out);
    }
  }
}
