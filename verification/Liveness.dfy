/** Who counts as connected: what keeps an uplink alive at the server, and what two minutes of silence do to it. */
module Liveness {
  import opened Bytes
  import opened Exchanges
  import opened Protocol
  import opened Resequencer
  import S = Concentrator

  // ----- the reaper

  lemma {:induction false} LivingFind(links: seq<S.PeerLink>, linkId: nat, now: real)
    requires S.DistinctLinks(links)
    ensures S.Find(S.Living(links, now), linkId).Some?
       <==> S.Find(links, linkId).Some? && now - links[S.Find(links, linkId).value].lastSeen < 120.0
    ensures S.Find(S.Living(links, now), linkId).Some? ==>
              S.Living(links, now)[S.Find(S.Living(links, now), linkId).value] == links[S.Find(links, linkId).value]
  {
    var live, i := S.Living(links, now), S.Find(links, linkId);
    if S.Find(live, linkId).Some? {
      var l := live[S.Find(live, linkId).value];
      assert l in live;
      assert i.Some?;
      SameLink(links, i.value, l);
    }
    if i.Some? && now - links[i.value].lastSeen < 120.0 {
      assert links[i.value] in live;
      var k :| 0 <= k < |live| && live[k] == links[i.value];
    }
  }

  lemma {:induction false} NoneIn(linkId: nat)
    ensures S.Find([], linkId) == None
  {
  }

  /**
   Exactly whom the reaper takes: an uplink that has been silent for 120 seconds or more, and with its last one the
   session.  Every other uplink stays as it was.
   */
  lemma ReapsTheSilent(s: S.Server, now: real, id: nat, linkId: nat)
    requires S.Keyed(s)
    ensures Peer(S.Reap(s, now), id, linkId)
         == match Peer(s, id, linkId)
            case None => None
            case Some(p) => if now - p.lastSeen < 120.0 then Some(p) else None
    ensures id in S.Reap(s, now).sessions <==>
              id in s.sessions && exists p :: p in s.sessions[id].links && now - p.lastSeen < 120.0
  {
    if id in s.sessions {
      var links := s.sessions[id].links;
      LivingFind(links, linkId, now);
      hide S.Find;
      if S.Living(links, now) != [] {
        assert S.Living(links, now)[0] in S.Living(links, now);
      } else {
        NoneIn(linkId);
        assert forall p :: p in links && now - p.lastSeen < 120.0 ==> p in S.Living(links, now);
      }
    }
  }

  // ----- contact

  lemma JoinedCounts(s: S.Server, f: Frame, addr: S.Address, now: real)
    ensures var (links, i) := S.Joined(S.SessionFor(s, f.sessionId, now).links, f.linkId, addr, now);
            links[i].rx == match Peer(s, f.sessionId, f.linkId) case None => 0 case Some(p) => p.rx
  {
  }

  /** A fresh frame that closes nothing is contact: its uplink was last seen when the frame came. */
  lemma FreshIsContact(s: S.Server, f: Frame, addr: S.Address, t: real)
    requires S.Keyed(s) && Welcome(s, f) && f.kind != CLOSE
    ensures var s' := S.Process(s, f, addr, t).0;
            && S.Keyed(s') && Peer(s', f.sessionId, f.linkId).Some?
            && Peer(s', f.sessionId, f.linkId).value.lastSeen == t
            && Peer(s', f.sessionId, f.linkId).value.rx
               == 1 + match Peer(s, f.sessionId, f.linkId) case None => 0 case Some(p) => p.rx
  {
    hide EncodeFrame, Push, DecodeFrame, S.Joined, S.SessionFor, S.Keyed, Welcome;
    JoinedCounts(s, f, addr, t);
    S.ProcessKeyed(s, f, addr, t);
    JoinedPeer(s, f, addr, t);
    SessionDistinct(s, f, addr, t);
    var session := S.SessionFor(s, f.sessionId, t).(sessionId := f.sessionId);
    var (links, i) := S.Joined(session.links, f.linkId, addr, t);
    var s' := S.Process(s, f, addr, t).0;
    assert f.sessionId in s'.sessions;
    var after := s'.sessions[f.sessionId].links;
    assert |after| == |links| && forall j :: 0 <= j < |links| ==> after[j].linkId == links[j].linkId;
    S.FindDistinct(after, i);
    assert after[i].lastSeen == t && after[i].rx == links[i].rx + 1;
  }

  /** A frame whose counter is stale or seen is no contact: a known uplink keeps its time. */
  lemma StaleIsNoContact(s: S.Server, f: Frame, addr: S.Address, t: real)
    requires S.Keyed(s) && !Welcome(s, f) && Peer(s, f.sessionId, f.linkId).Some?
    ensures var p' := Peer(S.Process(s, f, addr, t).0, f.sessionId, f.linkId);
            && p'.Some?
            && p'.value.(addr := Peer(s, f.sessionId, f.linkId).value.addr) == Peer(s, f.sessionId, f.linkId).value
  {
    JoinedPeer(s, f, addr, t);
    SessionDistinct(s, f, addr, t);
    hide Welcome;
    var links := s.sessions[f.sessionId].links;
    var (joined, i) := S.Joined(links, f.linkId, addr, t);
    S.FindDistinct(joined, i);
  }

  /** After a fresh frame at t the uplink survives exactly the reaps that come less than 120 seconds later. */
  lemma SurvivesReap(s: S.Server, f: Frame, addr: S.Address, t: real, now: real)
    requires S.Keyed(s) && Welcome(s, f) && f.kind != CLOSE
    ensures Peer(S.Reap(S.Process(s, f, addr, t).0, now), f.sessionId, f.linkId).Some? <==> now - t < 120.0
  {
    FreshIsContact(s, f, addr, t);
    hide S.Process, S.Keyed, Welcome, Peer, S.Reap;
    ReapsTheSilent(S.Process(s, f, addr, t).0, now, f.sessionId, f.linkId);
  }

  // ----- return traffic

  /** Return traffic always leaves over an uplink heard within 120 seconds, and waits only when there is none. */
  lemma ReturnLinkIsLive(session: S.Session, now: real)
    ensures S.ReturnLink(session, now) == None <==> forall p :: p in session.links ==> now - p.lastSeen >= 120.0
    ensures S.ReturnLink(session, now).Some? ==>
              && S.ReturnLink(session, now).value in session.links
              && now - S.ReturnLink(session, now).value.lastSeen < 120.0
  {
    var live := S.Living(session.links, now);
    if live != [] {
      assert live[0] in live;
      assert live[session.cursor % |live|] in live;
    }
    assert forall p :: p in session.links && now - p.lastSeen < 120.0 ==> p in live;
  }

  /** A lone uplink is the return link for exactly 120 seconds after its last contact. */
  lemma LoneReturnLink(session: S.Session, now: real)
    requires |session.links| == 1
    ensures S.ReturnLink(session, now)
         == if now - session.links[0].lastSeen < 120.0 then Some(session.links[0]) else None
  {
    ReturnLinkIsLive(session, now);
    hide S.ReturnLink;
    assert session.links[0] in session.links;
    assert forall p :: p in session.links ==> p == session.links[0];
  }

  /**
   From the frame to the return traffic: a session's only uplink, heard at t, takes its return traffic up to t + 120.
   */
  lemma HeardTakesReturns(s: S.Server, f: Frame, addr: S.Address, t: real, now: real)
    requires S.Keyed(s) && Welcome(s, f) && f.kind != CLOSE
    requires var s' := S.Process(s, f, addr, t).0; f.sessionId in s'.sessions && |s'.sessions[f.sessionId].links| == 1
    ensures var s' := S.Process(s, f, addr, t).0;
            var r := S.ReturnLink(s'.sessions[f.sessionId], now);
            (r.Some? <==> now - t < 120.0) && (r.Some? ==> r == Peer(s', f.sessionId, f.linkId))
  {
    FreshIsContact(s, f, addr, t);
    hide S.Process, S.Keyed, Welcome, S.ReturnLink;
    LoneReturnLink(S.Process(s, f, addr, t).0.sessions[f.sessionId], now);
  }
}
