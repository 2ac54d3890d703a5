/** The mutable side of link monitoring: a link, its health record, and the monitor that probes them. */
module LinkMonitoring {
  import opened Monitor

  class LinkHealth {
    var rtt: real
    var jitter: real
    var loss: real
    var rxMbps: real
    var txMbps: real
    var failures: nat
    var successes: nat

    function View(): Health
      reads this
    {
      Health(rtt, jitter, loss, failures, successes)
    }

    constructor ()
      ensures View() == NEW_LINK.health
    {
      rtt, jitter, loss, rxMbps, txMbps, failures, successes := 0.0, 0.0, 0.0, 0.0, 0.0, 0, 0;
    }

    method RecordSuccess(rtt: real, jitter: real, loss: real)
      modifies `rtt, `jitter, `loss, `failures, `successes
      ensures View() == Monitor.RecordSuccess(old(View()), rtt, jitter, loss)
    {
      this.rtt := if this.rtt == 0.0 then rtt else ALPHA * rtt + (1.0 - ALPHA) * this.rtt;
      this.jitter := if this.jitter == 0.0 then jitter else ALPHA * jitter + (1.0 - ALPHA) * this.jitter;
      this.loss := ALPHA * loss + (1.0 - ALPHA) * this.loss;
      failures := 0;
      successes := successes + 1;
    }

    method RecordFailure()
      modifies `loss, `failures, `successes
      ensures View() == Monitor.RecordFailure(old(View()))
    {
      successes := 0;
      failures := failures + 1;
      var raised := loss * 0.7 + 100.0 * 0.3;
      loss := if raised < 100.0 then raised else 100.0;
    }
  }

  class Uplink {
    var enabled: bool
    var state: LinkState
    var uplinkMbps: real
    var downlinkMbps: real
    const health: LinkHealth

    function View(): Link
      reads this, health
    {
      Link(enabled, state, health.View())
    }

    constructor ()
      ensures View() == NEW_LINK && fresh(health)
    {
      enabled, state, uplinkMbps, downlinkMbps := true, Unknown, 0.0, 0.0;
      health := new LinkHealth();
    }
  }

  datatype Cycle = Cycle(probe: Probe, rx: real, tx: real)

  /** What a cycle means for a link, given the operator's switch. */
  function Seen(enabled: bool, probe: Probe): Probe {
    if enabled then probe else Off
  }

  /** Observed throughput is a lower bound on capacity, never an upper one. */
  function Larger(known: real, observed: real): real {
    if observed > known then observed else known
  }

  class LinkMonitor {
    const links: seq<Uplink>
    var round: nat
    /** Every call made to the state-change callback, oldest first. */
    var notified: seq<(Uplink, LinkState, LinkState)>

    /** No two uplinks share an object, so probing one leaves the others alone. */
    ghost predicate Separate() {
      forall i, j :: 0 <= i < j < |links| ==> links[i] != links[j] && links[i].health != links[j].health
    }

    constructor (links: seq<Uplink>)
      ensures this.links == links && round == 0 && notified == []
    {
      this.links, round, notified := links, 0, [];
    }

    /**
     One probe cycle of one link: what the targets answered, and the throughput measured meanwhile.  The operator's
     switch is only read; a disabled link is not probed at all, and its capacity stays as it was.
     */
    method ProbeLink(link: Uplink, cycle: Cycle)
      requires !cycle.probe.Off?
      modifies this, link.health, link`state, link`uplinkMbps, link`downlinkMbps
      ensures link.View() == Monitor.ProbeLink(old(link.View()), Seen(old(link.enabled), cycle.probe))
      ensures link.uplinkMbps == if link.enabled then Larger(old(link.uplinkMbps), cycle.tx) else old(link.uplinkMbps)
      ensures link.downlinkMbps
           == if link.enabled then Larger(old(link.downlinkMbps), cycle.rx) else old(link.downlinkMbps)
      ensures link.enabled ==> link.health.rxMbps == cycle.rx && link.health.txMbps == cycle.tx
      ensures round == old(round)
      ensures notified == old(notified)
                + if link.state != old(link.state) then [(link, old(link.state), link.state)] else []
    {
      if !link.enabled {
        Transition(link, Disabled);
        return;
      }
      match cycle.probe {
        case Reply(rtt, jitter, loss) => link.health.RecordSuccess(rtt, jitter, loss);
        case Silence => link.health.RecordFailure();
      }
      link.health.rxMbps, link.health.txMbps := cycle.rx, cycle.tx;
      if cycle.tx > link.uplinkMbps {
        link.uplinkMbps := cycle.tx;
      }
      if cycle.rx > link.downlinkMbps {
        link.downlinkMbps := cycle.rx;
      }
      Transition(link, Evaluate(link.state, link.health.View()));
    }

    method Transition(link: Uplink, newState: LinkState)
      modifies this`notified, link`state
      ensures link.state == newState
      ensures notified == old(notified)
                + if newState != old(link.state) then [(link, old(link.state), newState)] else []
    {
      var oldState := link.state;
      if oldState == newState {
        return;
      }
      link.state := newState;
      notified := notified + [(link, oldState, newState)];
    }

    /** A round probes every link once; the probes run concurrently on disjoint links, so any order is this one. */
    method ProbeAll(cycles: seq<Cycle>)
      requires Separate() && |cycles| == |links|
      requires forall i :: 0 <= i < |links| ==> !cycles[i].probe.Off?
      modifies this, links, set i | 0 <= i < |links| :: links[i].health
      ensures forall i :: 0 <= i < |links| ==>
                links[i].View() == Monitor.ProbeLink(old(links[i].View()), Seen(old(links[i].enabled), cycles[i].probe))
      ensures round == old(round) + 1
    {
      var k := 0;
      while k < |links|
        invariant 0 <= k <= |links| && round == old(round)
        invariant forall i :: 0 <= i < k ==>
                    links[i].View()
                      == Monitor.ProbeLink(old(links[i].View()), Seen(old(links[i].enabled), cycles[i].probe))
        invariant forall i :: k <= i < |links| ==> links[i].View() == old(links[i].View())
      {
        this.ProbeLink(links[k], cycles[k]);
        k := k + 1;
      }
      round := round + 1;
    }
  }
}
