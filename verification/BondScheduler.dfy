/** The scheduler object of turbobond/bond/scheduler.py.  Its lock only serialises calls, so calls are atomic here. */
module BondScheduling {
  import opened Bytes
  import opened Scheduler

  /** The same pick apart from how many rounds it still needs. */
  ghost predicate Same(p: Pick, q: Pick) {
    p.index == q.index && p.ledger == q.ledger
  }

  class BondScheduler {
    var links: seq<Link>
    var mode: Mode
    var quantum: int
    var cursor: nat
    var ledger: Ledger
    var totalPackets: nat
    var totalBytes: nat
    var duplicatedPackets: nat
    var droppedPackets: nat

    function View(): State
      reads this
    {
      State(links, mode, quantum, cursor, ledger, totalPackets, totalBytes, duplicatedPackets, droppedPackets)
    }

    constructor (links: seq<Link>, mode: Mode := Weighted, quantum: int := 1500)
      ensures View() == State(links, mode, quantum, 0, Synced(map[], links), 0, 0, 0, 0)
    {
      this.links, this.mode, this.quantum := links, mode, quantum;
      cursor, ledger := 0, map[];
      totalPackets, totalBytes, duplicatedPackets, droppedPackets := 0, 0, 0, 0;
      new;
      SyncCounters();
    }

    method SetLinks(links: seq<Link>)
      modifies this
      ensures View() == Scheduler.SetLinks(old(View()), links)
    {
      this.links := links;
      cursor := 0;
      SyncCounters();
    }

    /** The link objects are shared with the monitor, which changes their health in place. */
    method Rehealth(links: seq<Link>)
      modifies this
      ensures View() == old(View()).(links := links)
    {
      this.links := links;
    }

    method SyncCounters()
      modifies `ledger
      ensures ledger == Synced(old(ledger), links)
    {
      var i := 0;
      while i < |links|
        invariant 0 <= i <= |links|
        invariant ledger == Synced(old(ledger), links[..i])
      {
        assert links[..i + 1][..i] == links[..i];
        var id := links[i].id;
        if id !in ledger {
          ledger := ledger[id := NO_COUNTERS];
        }
        i := i + 1;
      }
      assert links[..i] == links;
    }

    method Select(len: nat, critical: bool) returns (chosen: seq<Link>)
      modifies this
      ensures var (s, c) := Scheduler.Select(old(View()), len, critical); View() == s && chosen == c
    {
      hide Candidates, Scheduler.WeightedPick, ChargeAll, Quickest;
      var cands := Candidates(links);
      if cands == [] {
        droppedPackets := droppedPackets + 1;
        return [];
      }
      if |cands| == 1 {
        chosen := [cands[0]];
      } else if critical || mode == Redundant {
        chosen := cands;
      } else if mode == LowestLatency {
        chosen := [cands[Quickest(cands)]];
      } else {
        var l := this.WeightedPick(cands, len);
        chosen := [l];
      }
      totalPackets := totalPackets + 1;
      totalBytes := totalBytes + len;
      if |chosen| > 1 {
        duplicatedPackets := duplicatedPackets + 1;
      }
      assert |cands| == 1 ==> [cands[0]] == cands;
      Account(chosen, len);
    }

    method Account(chosen: seq<Link>, len: nat)
      modifies `ledger
      ensures ledger == ChargeAll(old(ledger), chosen, len)
    {
      var i := 0;
      while i < |chosen|
        invariant 0 <= i <= |chosen|
        invariant ledger == ChargeAll(old(ledger), chosen[..i], len)
      {
        assert chosen[..i + 1][..i] == chosen[..i];
        var l := chosen[i];
        var c := if l.id in ledger then ledger[l.id] else NO_COUNTERS;
        ledger := ledger[l.id := c.(packets := c.packets + 1, bytes := c.bytes + len)];
        i := i + 1;
      }
      assert chosen[..i] == chosen;
    }

    method WeightedPick(cands: seq<Link>, len: nat) returns (l: Link)
      requires cands != []
      modifies `ledger, `cursor
      ensures var o := Scheduler.WeightedPick(cands, old(ledger), old(cursor), quantum, len);
              l == cands[o.index] && ledger == o.ledger && cursor == o.cursor
    {
      hide TotalWeight, Weight, Weightiest, Credit;
      var total := TotalWeight(cands);
      if total <= 0.0 {
        return cands[0];
      }
      ghost var goal := PickWithin(ledger, cands, cursor, len, quantum, Tries(cands));
      var attempt := 0;
      while attempt < |cands| * 2 + 2
        invariant 0 <= attempt <= Tries(cands) && cursor == old(cursor)
        invariant Same(goal, PickWithin(ledger, cands, cursor, len, quantum, Tries(cands) - attempt))
      {
        ghost var before := ledger;
        var offset := 0;
        while offset < |cands|
          invariant 0 <= offset <= |cands| && cursor == old(cursor) && ledger == before
          invariant Scan(ledger, cands, cursor, len, 0) == Scan(ledger, cands, cursor, len, offset)
        {
          var index := (cursor + offset) % |cands|;
          var c := if cands[index].id in ledger then ledger[cands[index].id] else NO_COUNTERS;
          if c.deficit >= len as real {
            ledger := ledger[cands[index].id := c.(deficit := c.deficit - len as real)];
            cursor := (index + 1) % |cands|;
            return cands[index];
          }
          offset := offset + 1;
        }
        CreditRound(cands, total);
        attempt := attempt + 1;
      }
      return cands[Weightiest(cands)];
    }

    method CreditRound(cands: seq<Link>, total: real)
      requires total == TotalWeight(cands) > 0.0
      modifies `ledger
      ensures ledger == Credit(old(ledger), cands, quantum)
    {
      var k := 0;
      while k < |cands|
        invariant 0 <= k <= |cands|
        invariant ledger == Credited(old(ledger), cands, quantum, k)
      {
        var l := cands[k];
        var c := if l.id in ledger then ledger[l.id] else NO_COUNTERS;
        var share := Weight(l) / total;
        var credit := quantum as real * share * |cands| as real;
        assert credit == CreditAmount(quantum as real, Weight(l), total, |cands| as real);
        assert credit == CreditOf(cands, l, quantum);
        ledger := ledger[l.id := c.(deficit := c.deficit + credit)];
        k := k + 1;
      }
    }
  }
}
