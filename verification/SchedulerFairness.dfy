/** What deficit round-robin guarantees: who is picked, that someone always is, and byte-fair shares over any run. */
module SchedulerFairness {
  import opened Bytes
  import opened Scheduler

  // ----- credit rounds

  /** A credit round raises each candidate by its share once and leaves every other link alone. */
  lemma {:induction false} CreditedDeficit(pl: Ledger, cands: seq<Link>, quantum: int, k: nat, id: int)
    requires k <= |cands| && TotalWeight(cands) > 0.0
    requires forall i, j :: 0 <= i < j < |cands| ==> cands[i].id != cands[j].id
    ensures forall i :: 0 <= i < k && cands[i].id == id ==>
              Deficit(Credited(pl, cands, quantum, k), id) == Deficit(pl, id) + CreditOf(cands, cands[i], quantum)
    ensures (forall i :: 0 <= i < k ==> cands[i].id != id) ==>
              Deficit(Credited(pl, cands, quantum, k), id) == Deficit(pl, id)
  {
    if k > 0 { CreditedDeficit(pl, cands, quantum, k - 1, id); }
    hide CreditOf, TotalWeight;
  }

  lemma {:induction false} CreditDeficit(pl: Ledger, cands: seq<Link>, quantum: int, i: nat)
    requires Bondable(cands) && i < |cands| && TotalWeight(cands) > 0.0
    ensures Deficit(Credit(pl, cands, quantum), cands[i].id)
         == Deficit(pl, cands[i].id) + CreditOf(cands, cands[i], quantum)
  {
    CreditedDeficit(pl, cands, quantum, |cands|, cands[i].id);
  }

  function AfterRounds(pl: Ledger, cands: seq<Link>, quantum: int, r: nat): Ledger
    requires TotalWeight(cands) > 0.0
    decreases r
  {
    if r == 0 then pl else AfterRounds(Credit(pl, cands, quantum), cands, quantum, r - 1)
  }

  function Times(r: nat, c: real): real {
    r as real * c
  }

  lemma TimesStep(r: nat, c: real)
    ensures Times(0, c) == 0.0 && Times(r + 1, c) == c + Times(r, c)
  {
    assert (r + 1) as real * c == r as real * c + c;
  }

  lemma {:induction false} AfterRoundsDeficit(pl: Ledger, cands: seq<Link>, quantum: int, r: nat, i: nat)
    requires Bondable(cands) && i < |cands| && TotalWeight(cands) > 0.0
    ensures Deficit(AfterRounds(pl, cands, quantum, r), cands[i].id)
         == Deficit(pl, cands[i].id) + Times(r, CreditOf(cands, cands[i], quantum))
    decreases r
  {
    var c := CreditOf(cands, cands[i], quantum);
    if r == 0 {
      TimesStep(0, c);
    } else {
      TimesStep(r - 1, c);
      CreditDeficit(pl, cands, quantum, i);
      hide Times, CreditOf, Credit, Deficit, Bondable;
      AfterRoundsDeficit(Credit(pl, cands, quantum), cands, quantum, r - 1, i);
    }
  }

  // ----- scanning

  lemma OneMultiple(d: int, n: nat)
    ensures d >= 1 ==> d * n >= n
    ensures d <= -1 ==> d * n + n <= 0
  {
    assert d >= 1 ==> (d - 1) * n >= 0;
    assert d <= -1 ==> (-d - 1) * n >= 0;
  }

  lemma ModUnique(x: nat, q: int, n: nat, r: int)
    requires n > 0 && x == q * n + r && 0 <= r < n
    ensures x % n == r
  {
    var d := x / n - q;
    assert x == (x / n) * n + x % n;
    assert d * n == r - x % n;
    OneMultiple(d, n);
  }

  /** Every candidate is some cyclic distance below n from the cursor. */
  lemma OffsetOf(n: nat, cursor: nat, i: nat) returns (offset: nat)
    requires i < n
    ensures offset < n && (cursor + offset) % n == i
  {
    var q, c := cursor / n, cursor % n;
    assert cursor == q * n + c;
    if i >= c {
      offset := i - c;
      ModUnique(cursor + offset, q, n, i);
    } else {
      offset := i + n - c;
      assert cursor + offset == (q + 1) * n + i;
      ModUnique(cursor + offset, q + 1, n, i);
    }
  }

  predicate CanPay(pl: Ledger, l: Link, len: nat) {
    Deficit(pl, l.id) >= len as real
  }

  /** A scan finds the nearest candidate after the cursor that can pay, and fails only when none can. */
  lemma {:induction false} ScanNearest(pl: Ledger, cands: seq<Link>, cursor: nat, len: nat, offset: nat)
    requires cands != [] && offset <= |cands|
    ensures match Scan(pl, cands, cursor, len, offset)
            case None => forall o :: offset <= o < |cands| ==> !CanPay(pl, cands[At(cands, cursor, o)], len)
            case Some(i) => exists o :: offset <= o < |cands| && At(cands, cursor, o) == i && CanPay(pl, cands[i], len)
                              && forall p :: offset <= p < o ==> !CanPay(pl, cands[At(cands, cursor, p)], len)
    decreases |cands| - offset
  {
    if offset < |cands| && !CanPay(pl, cands[At(cands, cursor, offset)], len) {
      hide At;
      ScanNearest(pl, cands, cursor, len, offset + 1);
    }
  }

  lemma {:induction false} ScanFails(pl: Ledger, cands: seq<Link>, cursor: nat, len: nat, i: nat)
    requires cands != [] && i < |cands| && Scan(pl, cands, cursor, len, 0) == None
    ensures !CanPay(pl, cands[i], len)
  {
    ScanNearest(pl, cands, cursor, len, 0);
    var o := OffsetOf(|cands|, cursor, i);
    assert At(cands, cursor, o) == i;
  }

  // ----- the pick

  /** How a pick ends, given the ledger after its credit rounds: one candidate is charged, or the tries ran out. */
  ghost predicate Settles(p: Pick, after: Ledger, cands: seq<Link>, cursor: nat, len: nat, tries: nat)
    requires cands != []
  {
    match p.index
    case None => p.rounds == tries && p.ledger == after
    case Some(i) =>
      && p.rounds < tries && i < |cands| && Scan(after, cands, cursor, len, 0) == Some(i)
      && p.ledger == SetDeficit(after, cands[i].id, Deficit(after, cands[i].id) - len as real)
  }

  /** Who wins: the nearest payer after the fewest credit rounds that make anyone able to pay; it is charged. */
  lemma {:induction false} PickIsEarliest(pl: Ledger, cands: seq<Link>, cursor: nat, len: nat, quantum: int, tries: nat)
    requires Bondable(cands) && TotalWeight(cands) > 0.0
    ensures var p := PickWithin(pl, cands, cursor, len, quantum, tries);
            && p.rounds <= tries
            && (forall r: nat :: r < p.rounds ==>
                  Scan(AfterRounds(pl, cands, quantum, r), cands, cursor, len, 0) == None)
            && Settles(p, AfterRounds(pl, cands, quantum, p.rounds), cands, cursor, len, tries)
    decreases tries
  {
    if tries > 0 && Scan(pl, cands, cursor, len, 0) == None {
      var next := Credit(pl, cands, quantum);
      hide Scan, Credit, Bondable, TotalWeight, SetDeficit, Deficit;
      PickIsEarliest(next, cands, cursor, len, quantum, tries - 1);
      var p := PickWithin(pl, cands, cursor, len, quantum, tries);
      forall r: nat | r < p.rounds ensures Scan(AfterRounds(pl, cands, quantum, r), cands, cursor, len, 0) == None {
        if r > 0 {
          assert AfterRounds(pl, cands, quantum, r) == AfterRounds(next, cands, quantum, r - 1);
        }
      }
    }
  }

  ghost predicate InDebtFree(pl: Ledger) {
    forall id :: Deficit(pl, id) >= 0.0
  }

  lemma CostOfRounds(d: real, c: real, quantum: int, r: nat, len: nat)
    requires d >= 0.0 && c >= quantum as real && d + Times(r, c) < len as real
    ensures r * quantum < len
  {
    ScaleUp(quantum as real, c, r as real);
    assert (r * quantum) as real == r as real * quantum as real;
  }

  /** While nobody can pay, the heaviest candidate has collected a quantum per round and still lacks the price. */
  lemma {:induction false} RoundsCost(pl: Ledger, cands: seq<Link>, cursor: nat, len: nat, quantum: int, r: nat)
    requires Bondable(cands) && TotalWeight(cands) > 0.0 && quantum > 0 && InDebtFree(pl)
    requires Scan(AfterRounds(pl, cands, quantum, r), cands, cursor, len, 0) == None
    ensures r * quantum < len
  {
    var h := Heaviest(cands);
    CreditRange(cands, h, quantum);
    hide CreditAmount, Times;
    AfterRoundsDeficit(pl, cands, quantum, r, h);
    ScanFails(AfterRounds(pl, cands, quantum, r), cands, cursor, len, h);
    CostOfRounds(Deficit(pl, cands[h].id), CreditOf(cands, cands[h], quantum), quantum, r, len);
  }

  /**
   The fallback is unreachable: with n usable links and a packet of at most (2n+1) quanta, someone can pay within
   the retry budget, after no more credit rounds than the packet is long in quanta, rounded up.
   */
  lemma {:induction false} FallbackUnreachable(pl: Ledger, cands: seq<Link>, cursor: nat, len: nat, quantum: int)
    requires Bondable(cands) && quantum > 0 && InDebtFree(pl)
    requires len <= (2 * |cands| + 1) * quantum
    ensures TotalWeight(cands) > 0.0
    ensures var p := PickWithin(pl, cands, cursor, len, quantum, Tries(cands));
            p.index.Some? && (p.rounds > 0 ==> (p.rounds - 1) * quantum < len)
  {
    TotalPositive(cands);
    var p := PickWithin(pl, cands, cursor, len, quantum, Tries(cands));
    PickIsEarliest(pl, cands, cursor, len, quantum, Tries(cands));
    if p.rounds > 0 { RoundsCost(pl, cands, cursor, len, quantum, p.rounds - 1); }
  }

  lemma TimesGrow(r: nat, r': nat, c: real)
    requires r <= r' && c >= 0.0
    ensures Times(r, c) <= Times(r', c)
  {
    ScaleUp(r as real, r' as real, c);
  }

  /** Exactly when the retry budget fails: nobody can pay even after all 2n+1 credit rounds before the last scan. */
  lemma {:induction false} FallbackExactly(pl: Ledger, cands: seq<Link>, cursor: nat, len: nat, quantum: int)
    requires Bondable(cands) && TotalWeight(cands) > 0.0 && quantum > 0
    ensures PickWithin(pl, cands, cursor, len, quantum, Tries(cands)).index == None <==>
            forall i :: 0 <= i < |cands| ==>
              Deficit(pl, cands[i].id) + Times(2 * |cands| + 1, CreditOf(cands, cands[i], quantum)) < len as real
  {
    PickIsEarliest(pl, cands, cursor, len, quantum, Tries(cands));
    var p := PickWithin(pl, cands, cursor, len, quantum, Tries(cands));
    var last := 2 * |cands| + 1;
    hide PickWithin, Times, CreditOf, Bondable, TotalWeight, AfterRounds;
    if p.index == None {
      forall i | 0 <= i < |cands|
        ensures Deficit(pl, cands[i].id) + Times(last, CreditOf(cands, cands[i], quantum)) < len as real
      {
        ScanFails(AfterRounds(pl, cands, quantum, last), cands, cursor, len, i);
        AfterRoundsDeficit(pl, cands, quantum, last, i);
      }
    } else {
      var k := p.index.value;
      ScanNearest(AfterRounds(pl, cands, quantum, p.rounds), cands, cursor, len, 0);
      hide Scan;
      AfterRoundsDeficit(pl, cands, quantum, p.rounds, k);
      CreditRange(cands, k, quantum);
      TimesGrow(p.rounds, last, CreditOf(cands, cands[k], quantum));
    }
  }

  // ----- deficits stay bounded

  ghost predicate Within(pl: Ledger, limit: real) {
    forall id :: 0.0 <= Deficit(pl, id) < limit
  }

  lemma SetDeficitOnly(pl: Ledger, id: int, d: real, other: int)
    ensures Deficit(SetDeficit(pl, id, d), other) == if other == id then d else Deficit(pl, other)
  {
  }

  /** Nobody holds a packet's price before a credit round, so nobody exceeds price plus round total after it. */
  lemma {:induction false} CreditWithin(pl: Ledger, cands: seq<Link>, cursor: nat, len: nat, quantum: int, limit: real)
    requires Bondable(cands) && TotalWeight(cands) > 0.0 && quantum > 0 && Within(pl, limit)
    requires Scan(pl, cands, cursor, len, 0) == None && len as real + RoundTotal(quantum, |cands|) <= limit
    ensures Within(Credit(pl, cands, quantum), limit)
  {
    forall id ensures 0.0 <= Deficit(Credit(pl, cands, quantum), id) < limit {
      CreditedDeficit(pl, cands, quantum, |cands|, id);
      assert 0.0 <= Deficit(pl, id) < limit;
      if i: nat :| i < |cands| && cands[i].id == id {
        CreditRange(cands, i, quantum);
        ScanFails(pl, cands, cursor, len, i);
      }
    }
  }

  lemma {:induction false} PickWithinLimit(pl: Ledger, cands: seq<Link>, cursor: nat, len: nat, quantum: int,
                                          tries: nat, limit: real)
    requires Bondable(cands) && TotalWeight(cands) > 0.0 && quantum > 0 && Within(pl, limit)
    requires len as real + RoundTotal(quantum, |cands|) <= limit
    ensures Within(PickWithin(pl, cands, cursor, len, quantum, tries).ledger, limit)
    decreases tries
  {
    assert cands != [];
    hide RoundTotal, Bondable, TotalWeight, Credit;
    if tries > 0 {
      match Scan(pl, cands, cursor, len, 0)
      case None =>
        CreditWithin(pl, cands, cursor, len, quantum, limit);
        PickWithinLimit(Credit(pl, cands, quantum), cands, cursor, len, quantum, tries - 1, limit);
      case Some(i) =>
        ScanNearest(pl, cands, cursor, len, 0);
        hide Scan;
        var d := Deficit(pl, cands[i].id);
        assert 0.0 <= d < limit;
        var paid := SetDeficit(pl, cands[i].id, d - len as real);
        forall id ensures 0.0 <= Deficit(paid, id) < limit {
          SetDeficitOnly(pl, cands[i].id, d - len as real, id);
          assert 0.0 <= Deficit(pl, id) < limit;
        }
    }
  }

  // ----- every reachable state

  /** A packet to place, a new link set, or health changes to the links already there. */
  datatype Event = Packet(len: nat, critical: bool) | Replace(links: seq<Link>) | Rehealth(links: seq<Link>)

  function Apply(s: State, ev: Event): State {
    match ev
    case Packet(len, critical) => Select(s, len, critical).0
    case Replace(links) => SetLinks(s, links)
    case Rehealth(links) => s.(links := links)
  }

  function Run(s: State, evs: seq<Event>): State
    decreases |evs|
  {
    if evs == [] then s else Run(Apply(s, evs[0]), evs[1..])
  }

  predicate Distinct(links: seq<Link>) {
    forall i, j :: 0 <= i < j < |links| ==> links[i].id != links[j].id
  }

  predicate Fits(links: seq<Link>, most: nat) {
    Distinct(links) && |links| <= most
  }

  /** Packets no longer than `longest`, link sets of at most `most` links with distinct ids. */
  predicate Allowed(ev: Event, longest: nat, most: nat) {
    match ev
    case Packet(len, _) => len <= longest
    case Replace(links) => Fits(links, most)
    case Rehealth(links) => Fits(links, most)
  }

  lemma {:induction false} FilterDistinct(links: seq<Link>, keep: Link -> bool)
    requires Distinct(links)
    ensures Distinct(Filter(links, keep))
    decreases |links|
  {
    if links != [] {
      var tail := links[1..];
      assert forall i :: 0 <= i < |tail| ==> tail[i] == links[i + 1];
      FilterDistinct(tail, keep);
      var rest := Filter(tail, keep);
      assert forall i :: 0 <= i < |rest| ==> rest[i] in rest;
      assert Filter(links, keep) == (if keep(links[0]) then [links[0]] else []) + rest;
    }
  }

  lemma CandidatesBondable(links: seq<Link>)
    requires Distinct(links) && Candidates(links) != []
    ensures Bondable(Candidates(links)) && TotalWeight(Candidates(links)) > 0.0
  {
    FilterDistinct(links, (l: Link) => l.usable && l.ready);
    FilterDistinct(links, (l: Link) => l.usable);
    var cands := Candidates(links);
    assert forall i :: 0 <= i < |cands| ==> cands[i] in cands;
    TotalPositive(cands);
  }

  lemma {:induction false} ChargeDeficit(ledger: Ledger, chosen: seq<Link>, len: nat, id: int)
    ensures Deficit(ChargeAll(ledger, chosen, len), id) == Deficit(ledger, id)
  {
    if chosen != [] { ChargeDeficit(ledger, chosen[..|chosen| - 1], len, id); }
  }

  lemma {:induction false} SyncedDeficit(ledger: Ledger, links: seq<Link>, id: int)
    ensures Deficit(Synced(ledger, links), id) == Deficit(ledger, id)
  {
    if links != [] { SyncedDeficit(ledger, links[..|links| - 1], id); }
  }

  lemma RoundTotalGrows(quantum: int, n: nat, m: nat)
    requires quantum > 0 && n <= m
    ensures RoundTotal(quantum, n) <= RoundTotal(quantum, m)
  {
    ScaleUp(n as real, m as real, quantum as real);
  }

  lemma SelectWithin(s: State, len: nat, critical: bool, longest: nat, most: nat)
    requires s.quantum > 0 && Fits(s.links, most) && len <= longest
    requires Within(s.ledger, longest as real + RoundTotal(s.quantum, most))
    ensures Within(Select(s, len, critical).0.ledger, longest as real + RoundTotal(s.quantum, most))
  {
    var limit := longest as real + RoundTotal(s.quantum, most);
    var cands := Candidates(s.links);
    if cands != [] {
      CandidatesBondable(s.links);
      RoundTotalGrows(s.quantum, |cands|, most);
      hide RoundTotal, TotalWeight, Candidates;
      PickWithinLimit(s.ledger, cands, s.cursor, len, s.quantum, Tries(cands), limit);
      hide PickWithin, Bondable;
      var (s', chosen) := Select(s, len, critical);
      var weighted := |cands| > 1 && !critical && s.mode == Weighted;
      var ledger := if weighted then WeightedPick(cands, s.ledger, s.cursor, s.quantum, len).ledger else s.ledger;
      assert Within(ledger, limit);
      assert s'.ledger == ChargeAll(ledger, chosen, len);
      forall id ensures 0.0 <= Deficit(s'.ledger, id) < limit {
        ChargeDeficit(ledger, chosen, len, id);
        assert 0.0 <= Deficit(ledger, id) < limit;
      }
    }
  }

  /** In every reachable state each deficit is in [0, longest + quantum * most), whatever links and weights do. */
  lemma {:induction false} DeficitsBounded(s: State, evs: seq<Event>, longest: nat, most: nat)
    requires s.quantum > 0 && Fits(s.links, most)
    requires Within(s.ledger, longest as real + RoundTotal(s.quantum, most))
    requires forall i :: 0 <= i < |evs| ==> Allowed(evs[i], longest, most)
    ensures Within(Run(s, evs).ledger, longest as real + RoundTotal(s.quantum, most))
    decreases |evs|
  {
    if evs != [] {
      var s1 := Apply(s, evs[0]);
      var limit := longest as real + RoundTotal(s.quantum, most);
      assert Allowed(evs[0], longest, most);
      match evs[0] {
        case Packet(len, critical) =>
          SelectWithin(s, len, critical, longest, most);
        case Replace(links) =>
          forall id ensures 0.0 <= Deficit(s1.ledger, id) < limit {
            SyncedDeficit(s.ledger, links, id);
            assert 0.0 <= Deficit(s.ledger, id) < limit;
          }
        case Rehealth(links) =>
      }
      assert s1.quantum == s.quantum && Fits(s1.links, most);
      hide Apply, RoundTotal, Within;
      DeficitsBounded(s1, evs[1..], longest, most);
    }
  }

  // ----- fairness over a run with fixed links

  function Carried(ledger: Ledger, id: int): nat {
    if id in ledger then ledger[id].bytes else 0
  }

  function Limit(s: State, longest: nat, most: nat): real {
    longest as real + RoundTotal(s.quantum, most)
  }

  /** The state weighted sharing applies to: two or more candidates, bounded deficits. */
  ghost predicate Sharing(s: State, longest: nat, most: nat) {
    && s.mode == Weighted && s.quantum > 0 && Fits(s.links, most) && |Candidates(s.links)| >= 2
    && Within(s.ledger, Limit(s, longest, most))
  }

  predicate Payable(s: State, len: nat, longest: nat) {
    len <= longest && len <= (2 * |Candidates(s.links)| + 1) * s.quantum
  }

  ghost predicate AllPayable(s: State, lens: seq<nat>, longest: nat) {
    forall i :: 0 <= i < |lens| ==> Payable(s, lens[i], longest)
  }

  lemma PayableTail(s: State, s1: State, lens: seq<nat>, longest: nat)
    requires lens != [] && AllPayable(s, lens, longest) && s1.links == s.links && s1.quantum == s.quantum
    ensures Payable(s, lens[0], longest) && AllPayable(s1, lens[1..], longest)
  {
    assert forall i :: 0 <= i < |lens[1..]| ==> lens[1..][i] == lens[i + 1];
  }

  function SendAll(s: State, lens: seq<nat>): State
    decreases |lens|
  {
    if lens == [] then s else SendAll(Select(s, lens[0], false).0, lens[1..])
  }

  lemma {:induction false} CreditedCarried(pl: Ledger, cands: seq<Link>, quantum: int, k: nat, id: int)
    requires k <= |cands| && TotalWeight(cands) > 0.0
    ensures Carried(Credited(pl, cands, quantum, k), id) == Carried(pl, id)
  {
    if k > 0 { CreditedCarried(pl, cands, quantum, k - 1, id); }
    hide CreditOf, TotalWeight;
  }

  lemma {:induction false} AfterRoundsCarried(pl: Ledger, cands: seq<Link>, quantum: int, r: nat, id: int)
    requires TotalWeight(cands) > 0.0
    ensures Carried(AfterRounds(pl, cands, quantum, r), id) == Carried(pl, id)
    decreases r
  {
    if r > 0 {
      CreditedCarried(pl, cands, quantum, |cands|, id);
      hide TotalWeight, Credited;
      AfterRoundsCarried(Credit(pl, cands, quantum), cands, quantum, r - 1, id);
    }
  }

  lemma SelectStaysSharing(s: State, len: nat, longest: nat, most: nat)
    requires Sharing(s, longest, most) && Payable(s, len, longest)
    ensures var s' := Select(s, len, false).0;
            Sharing(s', longest, most) && s'.links == s.links && s'.quantum == s.quantum
  {
    SelectWithin(s, len, false, longest, most);
    hide Within, WeightedPick, ChargeAll, Candidates;
  }

  /** One candidate's books after one packet: credits in, bytes carried out. */
  ghost predicate Balances(s: State, s': State, l: Link, gained: real) {
    Deficit(s'.ledger, l.id) + (Carried(s'.ledger, l.id) - Carried(s.ledger, l.id)) as real
      == Deficit(s.ledger, l.id) + gained
  }

  function Gain(s: State, l: Link, r: nat): real
    requires TotalWeight(Candidates(s.links)) > 0.0
  {
    Times(r, CreditOf(Candidates(s.links), l, s.quantum))
  }

  lemma NoDebt(s: State, longest: nat, most: nat)
    requires Sharing(s, longest, most)
    ensures forall id :: Deficit(s.ledger, id) >= 0.0
  {
    hide Deficit, Limit;
    forall id ensures Deficit(s.ledger, id) >= 0.0 { assert 0.0 <= Deficit(s.ledger, id) < Limit(s, longest, most); }
  }

  /** What a weighted select does to the ledger, once its pick is known to succeed. */
  lemma {:induction false} WeightedSelect(s: State, len: nat)
    requires s.mode == Weighted && |Candidates(s.links)| >= 2 && TotalWeight(Candidates(s.links)) > 0.0
    requires PickWithin(s.ledger, Candidates(s.links), s.cursor, len, s.quantum, Tries(Candidates(s.links))).index.Some?
    ensures var cands := Candidates(s.links);
            var p := PickWithin(s.ledger, cands, s.cursor, len, s.quantum, Tries(cands));
            Select(s, len, false).0.ledger == Charge(p.ledger, cands[p.index.value], len)
  {
    hide PickWithin, TotalWeight, Candidates, Charge;
    var cands := Candidates(s.links);
    var p := PickWithin(s.ledger, cands, s.cursor, len, s.quantum, Tries(cands));
    assert [cands[p.index.value]][..0] == [];
    assert ChargeAll(p.ledger, [], len) == p.ledger;
  }

  /** The winner of a weighted pick is the only one charged, in deficit and in bytes. */
  lemma SelectCharges(s: State, len: nat, longest: nat, most: nat) returns (k: nat, r: nat)
    requires Sharing(s, longest, most) && Payable(s, len, longest)
    ensures var cands := Candidates(s.links);
            && TotalWeight(cands) > 0.0 && k < |cands| && Bondable(cands)
            && var after := AfterRounds(s.ledger, cands, s.quantum, r);
               Select(s, len, false).0.ledger
                 == Charge(SetDeficit(after, cands[k].id, Deficit(after, cands[k].id) - len as real), cands[k], len)
  {
    hide Limit, Select, PickWithin, Scan, AfterRounds, TotalWeight, Candidates, Bondable, Charge, SetDeficit, Deficit;
    var cands := Candidates(s.links);
    CandidatesBondable(s.links);
    NoDebt(s, longest, most);
    FallbackUnreachable(s.ledger, cands, s.cursor, len, s.quantum);
    PickIsEarliest(s.ledger, cands, s.cursor, len, s.quantum, Tries(cands));
    var p := PickWithin(s.ledger, cands, s.cursor, len, s.quantum, Tries(cands));
    k, r := p.index.value, p.rounds;
    WeightedSelect(s, len);
  }

  /** Charging the winner moves the packet's length from its deficit to its bytes; the others keep their books. */
  lemma ChargedBooks(after: Ledger, cands: seq<Link>, k: nat, len: nat, i: nat)
    requires Bondable(cands) && k < |cands| && i < |cands|
    ensures var left := Deficit(after, cands[k].id) - len as real;
            var paid := Charge(SetDeficit(after, cands[k].id, left), cands[k], len);
            var id := cands[i].id;
            Deficit(paid, id) + Carried(paid, id) as real == Deficit(after, id) + Carried(after, id) as real
  {
  }

  /** All candidates' books at once. */
  ghost predicate AllBalance(s: State, s': State, r: nat) {
    var cands := Candidates(s.links);
    TotalWeight(cands) > 0.0 && forall i :: 0 <= i < |cands| ==> Balances(s, s', cands[i], Gain(s, cands[i], r))
  }

  lemma {:induction false} SelectBooks(s: State, s': State, k: nat, len: nat, r: nat, i: nat)
    requires var cands := Candidates(s.links);
             && TotalWeight(cands) > 0.0 && k < |cands| && i < |cands| && Bondable(cands)
             && var after := AfterRounds(s.ledger, cands, s.quantum, r);
                s'.ledger
                  == Charge(SetDeficit(after, cands[k].id, Deficit(after, cands[k].id) - len as real), cands[k], len)
    ensures Balances(s, s', Candidates(s.links)[i], Gain(s, Candidates(s.links)[i], r))
  {
    var cands := Candidates(s.links);
    hide Times, CreditOf, TotalWeight, Candidates;
    var after := AfterRounds(s.ledger, cands, s.quantum, r);
    AfterRoundsDeficit(s.ledger, cands, s.quantum, r, i);
    AfterRoundsCarried(s.ledger, cands, s.quantum, r, cands[i].id);
    ChargedBooks(after, cands, k, len, i);
    hide Charge, SetDeficit, AfterRounds, Bondable, Deficit;
  }

  /** One packet: every candidate gains the same number of credit rounds and pays for exactly the bytes it carries. */
  lemma SelectConserves(s: State, len: nat, longest: nat, most: nat) returns (r: nat)
    requires Sharing(s, longest, most) && Payable(s, len, longest)
    ensures AllBalance(s, Select(s, len, false).0, r)
  {
    var cands := Candidates(s.links);
    var k;
    k, r := SelectCharges(s, len, longest, most);
    hide Select, AfterRounds, TotalWeight, Candidates, Sharing, Payable, Charge, Gain, Balances, Bondable, Deficit;
    forall i | 0 <= i < |cands| ensures Balances(s, Select(s, len, false).0, cands[i], Gain(s, cands[i], r)) {
      SelectBooks(s, Select(s, len, false).0, k, len, r, i);
    }
  }

  lemma GainAdds(s: State, l: Link, r: nat, r': nat)
    requires TotalWeight(Candidates(s.links)) > 0.0
    ensures Gain(s, l, r + r') == Gain(s, l, r) + Gain(s, l, r')
  {
    hide CreditOf, TotalWeight, Candidates;
    var c := CreditOf(Candidates(s.links), l, s.quantum);
    assert (r + r') as real * c == r as real * c + r' as real * c;
  }

  lemma BalancesAdd(s: State, s1: State, s2: State, l: Link, g: real, h: real)
    requires Balances(s, s1, l, g) && Balances(s1, s2, l, h)
    ensures Balances(s, s2, l, g + h)
  {
  }

  lemma BalancesNothing(s: State, l: Link)
    requires TotalWeight(Candidates(s.links)) > 0.0
    ensures Balances(s, s, l, Gain(s, l, 0))
  {
    TimesStep(0, CreditOf(Candidates(s.links), l, s.quantum));
  }

  lemma BooksAdd(s: State, s1: State, s2: State, l: Link, r0: nat, r1: nat)
    requires TotalWeight(Candidates(s.links)) > 0.0 && s1.links == s.links && s1.quantum == s.quantum
    requires Balances(s, s1, l, Gain(s, l, r0)) && Balances(s1, s2, l, Gain(s1, l, r1))
    ensures Balances(s, s2, l, Gain(s, l, r0 + r1))
  {
    GainAdds(s, l, r0, r1);
    assert Gain(s1, l, r1) == Gain(s, l, r1);
    hide Gain, Candidates, TotalWeight;
    BalancesAdd(s, s1, s2, l, Gain(s, l, r0), Gain(s, l, r1));
  }

  lemma AllBalanceNothing(s: State, longest: nat, most: nat)
    requires Sharing(s, longest, most)
    ensures AllBalance(s, s, 0)
  {
    CandidatesBondable(s.links);
    var cands := Candidates(s.links);
    hide Gain, Balances, TotalWeight, Candidates;
    forall i | 0 <= i < |cands| ensures Balances(s, s, cands[i], Gain(s, cands[i], 0)) {
      BalancesNothing(s, cands[i]);
    }
  }

  lemma AllBooksAdd(s: State, s1: State, s2: State, r0: nat, r1: nat)
    requires s1.links == s.links && s1.quantum == s.quantum
    requires AllBalance(s, s1, r0) && AllBalance(s1, s2, r1)
    ensures AllBalance(s, s2, r0 + r1)
  {
    var cands := Candidates(s.links);
    hide Gain, Balances, Candidates, TotalWeight;
    forall i | 0 <= i < |cands| ensures Balances(s, s2, cands[i], Gain(s, cands[i], r0 + r1)) {
      BooksAdd(s, s1, s2, cands[i], r0, r1);
    }
  }

  /** Over a whole run every candidate's books balance against one common number of credit rounds. */
  lemma {:induction false} RunConserves(s: State, lens: seq<nat>, longest: nat, most: nat) returns (r: nat)
    requires Sharing(s, longest, most)
    requires AllPayable(s, lens, longest)
    ensures Sharing(SendAll(s, lens), longest, most) && AllBalance(s, SendAll(s, lens), r)
    decreases |lens|
  {
    hide Select, Sharing, AllBalance, AllPayable, Payable;
    if lens == [] {
      r := 0;
      AllBalanceNothing(s, longest, most);
    } else {
      PayableTail(s, s, lens, longest);
      SelectStaysSharing(s, lens[0], longest, most);
      var s1 := Select(s, lens[0], false).0;
      var r0 := SelectConserves(s, lens[0], longest, most);
      PayableTail(s, s1, lens, longest);
      var r1 := RunConserves(s1, lens[1..], longest, most);
      r := r0 + r1;
      AllBooksAdd(s, s1, SendAll(s, lens), r0, r1);
    }
  }

  lemma Quotient(x: real, y: real, z: real)
    requires y != 0.0 && z * y == x
    ensures x / y == z
  {
  }

  lemma Proportional(r: real, q: real, w: real, total: real, n: real)
    requires total > 0.0 && w > 0.0
    ensures (r * CreditAmount(q, w, total, n)) / w == r * (q * (1.0 / total) * n)
  {
    var unit := 1.0 / total;
    assert w / total == w * unit by {
      Quotient(w, total, w * unit) by { assert (w * unit) * total == w * (unit * total); }
    }
    assert r * (q * (w * unit) * n) == (r * (q * unit * n)) * w;
    Quotient((r * (q * unit * n)) * w, w, r * (q * unit * n));
  }

  /** Credits are proportional to weight, so a common number of rounds is a common amount per unit of weight. */
  lemma GainPerWeight(s: State, l: Link, l': Link, r: nat)
    requires TotalWeight(Candidates(s.links)) > 0.0 && Weight(l) > 0.0 && Weight(l') > 0.0
    ensures Gain(s, l, r) / Weight(l) == Gain(s, l', r) / Weight(l')
  {
    var total, n, q := TotalWeight(Candidates(s.links)), |Candidates(s.links)| as real, s.quantum as real;
    hide TotalWeight, Candidates, Weight;
    Proportional(r as real, q, Weight(l), total, n);
    Proportional(r as real, q, Weight(l'), total, n);
  }

  function PerWeight(s: State, s': State, l: Link): real
    requires Weight(l) > 0.0
  {
    (Carried(s'.ledger, l.id) - Carried(s.ledger, l.id)) as real / Weight(l)
  }

  lemma BooksPerWeight(before: real, after: real, bytes: real, gained: real, w: real, limit: real)
    requires w > 0.0 && 0.0 <= before < limit && 0.0 <= after < limit && after + bytes == before + gained
    ensures gained / w - limit / w < bytes / w < gained / w + limit / w
  {
    var x := before - after;
    assert bytes == x + gained;
    assert bytes / w == x / w + gained / w;
    ScaleOrder(x / w, limit / w, w);
    ScaleOrder(-limit / w, x / w, w);
    assert (x / w) * w == x && (limit / w) * w == limit && (-limit / w) * w == -limit;
  }

  lemma LinkBooks(s: State, s': State, longest: nat, most: nat, r: nat, i: nat)
    requires Sharing(s, longest, most) && Sharing(s', longest, most) && s'.quantum == s.quantum
    requires AllBalance(s, s', r) && i < |Candidates(s.links)|
    ensures var l, limit := Candidates(s.links)[i], Limit(s, longest, most);
            && Weight(l) > 0.0 && TotalWeight(Candidates(s.links)) > 0.0
            && 0.0 <= Deficit(s.ledger, l.id) < limit && 0.0 <= Deficit(s'.ledger, l.id) < limit
            && Deficit(s'.ledger, l.id) + (Carried(s'.ledger, l.id) - Carried(s.ledger, l.id)) as real
               == Deficit(s.ledger, l.id) + Gain(s, l, r)
  {
    hide Gain, TotalWeight, Deficit, Carried, RoundTotal;
    var l := Candidates(s.links)[i];
    assert l in Candidates(s.links);
    assert Balances(s, s', l, Gain(s, l, r));
  }

  lemma OneLinkFair(s: State, s': State, longest: nat, most: nat, r: nat, i: nat)
    requires Sharing(s, longest, most) && Sharing(s', longest, most) && s'.quantum == s.quantum
    requires AllBalance(s, s', r) && i < |Candidates(s.links)|
    ensures var l, limit := Candidates(s.links)[i], Limit(s, longest, most);
            && Weight(l) > 0.0
            && Gain(s, l, r) / Weight(l) - limit / Weight(l) < PerWeight(s, s', l)
            && PerWeight(s, s', l) < Gain(s, l, r) / Weight(l) + limit / Weight(l)
  {
    hide Candidates, Gain, Limit, Weight, Within, TotalWeight, Sharing, AllBalance, Deficit, Carried, Balances;
    var l, limit := Candidates(s.links)[i], Limit(s, longest, most);
    LinkBooks(s, s', longest, most, r, i);
    BooksPerWeight(Deficit(s.ledger, l.id), Deficit(s'.ledger, l.id),
                   (Carried(s'.ledger, l.id) - Carried(s.ledger, l.id)) as real, Gain(s, l, r), Weight(l), limit);
  }

  lemma AllBalanceTotal(s: State, s': State, r: nat)
    requires AllBalance(s, s', r)
    ensures TotalWeight(Candidates(s.links)) > 0.0
  {
  }

  lemma {:induction false} SendAllQuantum(s: State, lens: seq<nat>)
    ensures SendAll(s, lens).quantum == s.quantum
    decreases |lens|
  {
    if lens != [] {
      assert Select(s, lens[0], false).0.quantum == s.quantum;
      hide Select;
      SendAllQuantum(Select(s, lens[0], false).0, lens[1..]);
    }
  }

  /**
   Byte fairness.  Over a run of any length with fixed links and no duplicated packets, the bytes two links have
   carried per unit of weight differ by less than a constant that does not depend on the run.
   */
  lemma {:induction false} ByteFair(s: State, lens: seq<nat>, longest: nat, most: nat, i: nat, j: nat)
    requires Sharing(s, longest, most)
    requires AllPayable(s, lens, longest)
    requires var cands := Candidates(s.links); i < |cands| && j < |cands|
    ensures var cands, s' := Candidates(s.links), SendAll(s, lens);
            var limit := Limit(s, longest, most);
            && Weight(cands[i]) > 0.0 && Weight(cands[j]) > 0.0
            && PerWeight(s, s', cands[i]) - PerWeight(s, s', cands[j])
                 < limit / Weight(cands[i]) + limit / Weight(cands[j])
  {
    var r := RunConserves(s, lens, longest, most);
    SendAllQuantum(s, lens);
    hide SendAll, Sharing, AllPayable, Limit, PerWeight, Candidates, TotalWeight, Gain, AllBalance;
    var cands, s' := Candidates(s.links), SendAll(s, lens);
    OneLinkFair(s, s', longest, most, r, i);
    OneLinkFair(s, s', longest, most, r, j);
    assert TotalWeight(cands) > 0.0 by { AllBalanceTotal(s, s', r); }
    GainPerWeight(s, cands[i], cands[j], r);
  }

  /**
   A usable link weighs what it is configured and adjusted to, but no less than a thousandth; an unusable one nothing.
   */
  lemma WeightIsBase(l: Link)
    ensures l.usable && l.base >= 0.001 ==> Weight(l) == l.base
    ensures l.usable && l.base <= 0.001 ==> Weight(l) == 0.001
    ensures !l.usable ==> Weight(l) == 0.0
  {
  }

  lemma Rebased(s: State, s': State, l: Link, longest: nat, most: nat)
    requires l.usable && l.base >= 0.001
    ensures Weight(l) > 0.0
    ensures PerWeight(s, s', l) == (Carried(s'.ledger, l.id) - Carried(s.ledger, l.id)) as real / l.base
    ensures Limit(s, longest, most) / Weight(l) == (longest as real + s.quantum as real * most as real) / l.base
  {
    WeightIsBase(l);
    hide Weight, Carried;
  }

  /**
   The same in terms of what is configured.  For two candidates whose adjusted weights are at or above the floor, the
   bytes carried divided by those weights differ by less than a constant that does not depend on the run.
   */
  lemma {:induction false} ByteFairByBase(s: State, lens: seq<nat>, longest: nat, most: nat, i: nat, j: nat)
    requires Sharing(s, longest, most)
    requires AllPayable(s, lens, longest)
    requires var cands := Candidates(s.links);
             i < |cands| && j < |cands| && cands[i].base >= 0.001 && cands[j].base >= 0.001
    ensures var s' := SendAll(s, lens);
            var (a, b) := (Candidates(s.links)[i], Candidates(s.links)[j]);
            var limit := longest as real + s.quantum as real * most as real;
            (Carried(s'.ledger, a.id) - Carried(s.ledger, a.id)) as real / a.base
            - (Carried(s'.ledger, b.id) - Carried(s.ledger, b.id)) as real / b.base
              < limit / a.base + limit / b.base
  {
    hide SendAll, Sharing, AllPayable, Candidates, Weight, PerWeight, Limit;
    ByteFair(s, lens, longest, most, i, j);
    var cands, s' := Candidates(s.links), SendAll(s, lens);
    assert cands[i] in cands && cands[j] in cands;
    Rebased(s, s', cands[i], longest, most);
    Rebased(s, s', cands[j], longest, most);
  }
}
