/**
 Deficit weighted round-robin, turbobond/bond/scheduler.py.  Weights and deficits are reals.  This file holds the
 rules as functions on values and what they guarantee; BondScheduler.dfy holds the object.
 */
module Scheduler {
  import opened Bytes

  /** What the scheduler reads of a link; `base` is the configured weight times the quality factors. */
  datatype Link = Link(id: int, usable: bool, ready: bool, base: real, rtt: real)

  const MIN_WEIGHT: real := 0.001

  /** links/model.py: an unusable link weighs nothing, a usable one at least MIN_WEIGHT. */
  function Weight(l: Link): (w: real)
    ensures l.usable <==> w >= MIN_WEIGHT
    ensures l.usable || w == 0.0
  {
    if !l.usable then 0.0 else if l.base > MIN_WEIGHT then l.base else MIN_WEIGHT
  }

  datatype Counters = Counters(packets: nat, bytes: nat, deficit: real, drops: nat)

  type Ledger = map<int, Counters>

  const NO_COUNTERS := Counters(0, 0, 0.0, 0)

  function Filter(links: seq<Link>, keep: Link -> bool): (kept: seq<Link>)
    ensures forall l :: l in kept <==> l in links && keep(l)
    ensures |kept| <= |links|
  {
    if links == [] then [] else (if keep(links[0]) then [links[0]] else []) + Filter(links[1..], keep)
  }

  /** Ready links if there are any, otherwise every usable one. */
  function Candidates(links: seq<Link>): (cands: seq<Link>)
    ensures forall l :: l in cands ==> l in links && l.usable
    ensures cands == [] <==> forall l :: l in links ==> !l.usable
    ensures |cands| <= |links|
  {
    var ready := Filter(links, (l: Link) => l.usable && l.ready);
    var usable := Filter(links, (l: Link) => l.usable);
    if ready != [] then
      assert ready[0] in ready;
      ready
    else
      assert usable == [] ==> forall l :: l in links ==> l !in usable;
      assert usable != [] ==> usable[0] in usable && usable[0].usable;
      usable
  }

  function TotalWeight(cands: seq<Link>): real {
    if cands == [] then 0.0 else Weight(cands[0]) + TotalWeight(cands[1..])
  }

  function Deficit(pl: Ledger, id: int): real {
    if id in pl then pl[id].deficit else 0.0
  }

  function SetDeficit(pl: Ledger, id: int, deficit: real): Ledger {
    pl[id := (if id in pl then pl[id] else NO_COUNTERS).(deficit := deficit)]
  }

  function CreditAmount(quantum: real, weight: real, total: real, n: real): real
    requires total > 0.0
  {
    quantum * (weight / total) * n
  }

  /** What one credit round hands out in all. */
  function RoundTotal(quantum: int, n: nat): real {
    quantum as real * n as real
  }

  /** What one credit round adds to one candidate. */
  function CreditOf(cands: seq<Link>, l: Link, quantum: int): real
    requires TotalWeight(cands) > 0.0
  {
    CreditAmount(quantum as real, Weight(l), TotalWeight(cands), |cands| as real)
  }

  /** One credit round over the first k candidates. */
  function Credited(pl: Ledger, cands: seq<Link>, quantum: int, k: nat): Ledger
    requires k <= |cands| && TotalWeight(cands) > 0.0
  {
    if k == 0 then pl
    else
      var before := Credited(pl, cands, quantum, k - 1);
      var l := cands[k - 1];
      SetDeficit(before, l.id, Deficit(before, l.id) + CreditOf(cands, l, quantum))
  }

  function Credit(pl: Ledger, cands: seq<Link>, quantum: int): Ledger
    requires TotalWeight(cands) > 0.0
  {
    Credited(pl, cands, quantum, |cands|)
  }

  /** The candidate at a cyclic distance from the cursor. */
  function At(cands: seq<Link>, cursor: nat, offset: nat): (i: nat)
    requires cands != []
    ensures i < |cands|
  {
    (cursor + offset) % |cands|
  }

  /** Scan from `offset` on for the first candidate that can pay. */
  function Scan(pl: Ledger, cands: seq<Link>, cursor: nat, len: nat, offset: nat): (i: Option<nat>)
    requires cands != [] && offset <= |cands|
    ensures i.Some? ==> i.value < |cands|
    decreases |cands| - offset
  {
    if offset == |cands| then None
    else
      var i := At(cands, cursor, offset);
      if Deficit(pl, cands[i].id) >= len as real then Some(i) else Scan(pl, cands, cursor, len, offset + 1)
  }

  datatype Pick = Pick(index: Option<nat>, ledger: Ledger, rounds: nat)

  /** At most `tries` scans with a credit round after each failed one. */
  function PickWithin(pl: Ledger, cands: seq<Link>, cursor: nat, len: nat, quantum: int, tries: nat): (p: Pick)
    requires cands != [] && TotalWeight(cands) > 0.0
    ensures p.index.Some? ==> p.index.value < |cands|
    decreases tries
  {
    if tries == 0 then Pick(None, pl, 0)
    else
      match Scan(pl, cands, cursor, len, 0)
      case Some(i) => Pick(Some(i), SetDeficit(pl, cands[i].id, Deficit(pl, cands[i].id) - len as real), 0)
      case None =>
        var p := PickWithin(Credit(pl, cands, quantum), cands, cursor, len, quantum, tries - 1);
        p.(rounds := p.rounds + 1)
  }

  function Tries(cands: seq<Link>): nat {
    |cands| * 2 + 2
  }

  // ----- select

  datatype Mode = Weighted | LowestLatency | Redundant

  function Latency(l: Link): real {
    if l.rtt > 0.01 then l.rtt else 0.01
  }

  datatype State = State(links: seq<Link>, mode: Mode, quantum: int, cursor: nat, ledger: Ledger,
                         packets: nat, bytes: nat, duplicated: nat, dropped: nat)

  /** min() keeps the first of equal keys. */
  function Quickest(cands: seq<Link>): (i: nat)
    requires cands != []
    ensures i < |cands|
    ensures forall j :: 0 <= j < |cands| ==> Latency(cands[i]) <= Latency(cands[j])
    ensures forall j :: 0 <= j < i ==> Latency(cands[i]) < Latency(cands[j])
    decreases |cands|
  {
    if |cands| == 1 then 0
    else
      var tail := cands[1..];
      var t := Quickest(tail);
      assert forall j :: 0 < j < |cands| ==> cands[j] == tail[j - 1];
      if Latency(cands[0]) <= Latency(tail[t]) then 0 else t + 1
  }

  /** max() keeps the first of equal keys. */
  function Weightiest(cands: seq<Link>): (i: nat)
    requires cands != []
    ensures i < |cands|
    ensures forall j :: 0 <= j < |cands| ==> Weight(cands[j]) <= Weight(cands[i])
    ensures forall j :: 0 <= j < i ==> Weight(cands[j]) < Weight(cands[i])
    decreases |cands|
  {
    if |cands| == 1 then 0
    else
      var tail := cands[1..];
      var t := Weightiest(tail);
      assert forall j :: 0 < j < |cands| ==> cands[j] == tail[j - 1];
      if Weight(cands[0]) >= Weight(tail[t]) then 0 else t + 1
  }

  datatype Outcome = Outcome(index: nat, ledger: Ledger, cursor: nat)

  function WeightedPick(cands: seq<Link>, ledger: Ledger, cursor: nat, quantum: int, len: nat): (o: Outcome)
    requires cands != []
    ensures o.index < |cands|
  {
    if TotalWeight(cands) <= 0.0 then Outcome(0, ledger, cursor)
    else
      var p := PickWithin(ledger, cands, cursor, len, quantum, Tries(cands));
      match p.index
      case Some(i) => Outcome(i, p.ledger, (i + 1) % |cands|)
      case None => Outcome(Weightiest(cands), p.ledger, cursor)
  }

  function Charge(ledger: Ledger, l: Link, len: nat): Ledger {
    var c := if l.id in ledger then ledger[l.id] else NO_COUNTERS;
    ledger[l.id := c.(packets := c.packets + 1, bytes := c.bytes + len)]
  }

  function ChargeAll(ledger: Ledger, chosen: seq<Link>, len: nat): Ledger {
    if chosen == [] then ledger else Charge(ChargeAll(ledger, chosen[..|chosen| - 1], len), chosen[|chosen| - 1], len)
  }

  function Select(s: State, len: nat, critical: bool): (State, seq<Link>) {
    var cands := Candidates(s.links);
    if cands == [] then (s.(dropped := s.dropped + 1), [])
    else
      var weighted := |cands| > 1 && !critical && s.mode == Weighted;
      var o := if weighted then WeightedPick(cands, s.ledger, s.cursor, s.quantum, len)
               else Outcome(0, s.ledger, s.cursor);
      var chosen :=
        if |cands| == 1 then cands
        else if critical || s.mode == Redundant then cands
        else if s.mode == LowestLatency then [cands[Quickest(cands)]]
        else [cands[o.index]];
      (s.(ledger := ChargeAll(o.ledger, chosen, len), cursor := o.cursor, packets := s.packets + 1,
          bytes := s.bytes + len, duplicated := s.duplicated + if |chosen| > 1 then 1 else 0), chosen)
  }

  function Synced(ledger: Ledger, links: seq<Link>): Ledger {
    if links == [] then ledger
    else
      var l := links[|links| - 1];
      var before := Synced(ledger, links[..|links| - 1]);
      if l.id in before then before else before[l.id := NO_COUNTERS]
  }

  function SetLinks(s: State, links: seq<Link>): State {
    s.(links := links, cursor := 0, ledger := Synced(s.ledger, links))
  }

  // ----- weights

  ghost predicate Bondable(cands: seq<Link>) {
    && cands != []
    && (forall i :: 0 <= i < |cands| ==> cands[i].usable)
    && (forall i, j :: 0 <= i < j < |cands| ==> cands[i].id != cands[j].id)
  }

  /** The branch for a non-positive total weight is dead: usable links weigh at least MIN_WEIGHT each. */
  lemma {:induction false} TotalPositive(cands: seq<Link>)
    requires forall i :: 0 <= i < |cands| ==> cands[i].usable
    ensures cands != [] ==> TotalWeight(cands) >= MIN_WEIGHT
    ensures TotalWeight(cands) >= 0.0
    ensures forall i :: 0 <= i < |cands| ==> Weight(cands[i]) <= TotalWeight(cands)
    decreases |cands|
  {
    if cands != [] {
      var tail := cands[1..];
      TotalPositive(tail);
      assert forall i :: 0 < i < |cands| ==> cands[i] == tail[i - 1];
    }
  }

  lemma ScaleUp(a: real, b: real, k: real)
    requires a <= b && k >= 0.0
    ensures a * k <= b * k
  {
    assert (b - a) * k >= 0.0;
    assert b * k == a * k + (b - a) * k;
  }

  lemma ScaleOrder(a: real, b: real, k: real)
    requires k > 0.0
    ensures a < b ==> a * k < b * k
    ensures a * k <= b * k ==> a <= b
    ensures a * k < b * k ==> a < b
  {
    assert b * k == a * k + (b - a) * k;
    assert a < b ==> (b - a) * k > 0.0;
    assert b < a ==> (a - b) * k > 0.0;
    assert a * k == b * k + (a - b) * k;
  }

  lemma AverageStep(m: real, w: real, rest: real, n: real)
    requires rest <= m * n && n >= 0.0
    ensures m >= w ==> w + rest <= m * (n + 1.0)
    ensures m <= w ==> w + rest <= w * (n + 1.0)
  {
    assert m * (n + 1.0) == m * n + m;
    assert w * (n + 1.0) == w * n + w;
    if m <= w { ScaleUp(m, w, n); }
  }

  /** Some candidate weighs at least the average. */
  lemma {:induction false} Heaviest(cands: seq<Link>) returns (h: nat)
    requires cands != []
    ensures h < |cands| && TotalWeight(cands) <= Weight(cands[h]) * |cands| as real
    decreases |cands|
  {
    hide Weight;
    var tail := cands[1..];
    if tail == [] {
      h := 0;
      assert TotalWeight(tail) == 0.0;
    } else {
      var t := Heaviest(tail);
      assert cands[t + 1] == tail[t];
      assert |cands| as real == |tail| as real + 1.0;
      AverageStep(Weight(tail[t]), Weight(cands[0]), TotalWeight(tail), |tail| as real);
      h := if Weight(tail[t]) >= Weight(cands[0]) then t + 1 else 0;
    }
  }

  lemma {:induction false} WeightRange(cands: seq<Link>, i: nat)
    requires Bondable(cands) && i < |cands|
    ensures 0.0 < Weight(cands[i]) <= TotalWeight(cands)
  {
    TotalPositive(cands);
    hide TotalWeight;
  }

  lemma FractionRange(w: real, total: real)
    requires 0.0 < w <= total
    ensures 0.0 < w / total <= 1.0 && (w / total) * total == w
  {
    var s := w / total;
    assert s * total == w;
    ScaleOrder(s, 1.0, total);
    ScaleOrder(0.0, s, total);
  }

  lemma ProductRange(s: real, n: real, q: real)
    requires 0.0 < s <= 1.0 && n >= 1.0 && q > 0.0
    ensures 0.0 < (q * s) * n <= q * n
  {
    assert q * s > 0.0;
    assert q * s <= q by { ScaleUp(s, 1.0, q); }
    ScaleUp(q * s, q, n);
  }

  lemma ShareRange(w: real, total: real, n: real, q: real)
    requires 0.0 < w <= total && n >= 1.0 && q > 0.0
    ensures 0.0 < CreditAmount(q, w, total, n) <= q * n
    ensures total <= w * n ==> CreditAmount(q, w, total, n) >= q
  {
    FractionRange(w, total);
    var s := w / total;
    ProductRange(s, n, q);
    if total <= w * n {
      assert s * n >= 1.0 by {
        assert (s * n) * total == w * n by { assert (s * n) * total == (s * total) * n; }
        ScaleOrder(1.0, s * n, total);
      }
      ScaleUp(1.0, s * n, q);
      assert (s * n) * q == (q * s) * n;
    }
  }

  /** Every credit is positive and at most a quantum per candidate; the heaviest candidate gets a full quantum. */
  lemma {:induction false} CreditRange(cands: seq<Link>, i: nat, quantum: int)
    requires Bondable(cands) && i < |cands| && quantum > 0
    ensures TotalWeight(cands) > 0.0
    ensures 0.0 < CreditOf(cands, cands[i], quantum) <= RoundTotal(quantum, |cands|)
    ensures TotalWeight(cands) <= Weight(cands[i]) * |cands| as real ==>
              CreditOf(cands, cands[i], quantum) >= quantum as real
  {
    hide CreditAmount, TotalWeight, Weight, Bondable;
    WeightRange(cands, i);
    ShareRange(Weight(cands[i]), TotalWeight(cands), |cands| as real, quantum as real);
  }
}
