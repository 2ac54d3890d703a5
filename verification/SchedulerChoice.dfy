/** Who gets a packet in each mode, and that the statistics tell the truth about it over whole runs. */
module SchedulerChoice {
  import opened Bytes
  import opened Scheduler
  import opened SchedulerFairness

  /** Able to carry traffic: usable, and with a live tunnel socket unless no usable link has one. */
  predicate Eligible(l: Link, links: seq<Link>) {
    l in links && l.usable && (l.ready || forall k :: k in links ==> !(k.usable && k.ready))
  }

  lemma CandidatesEligible(links: seq<Link>, l: Link)
    ensures l in Candidates(links) <==> Eligible(l, links)
  {
    var ready := Filter(links, (k: Link) => k.usable && k.ready);
    assert ready != [] ==> ready[0] in ready;
  }

  lemma CandidatesDistinct(links: seq<Link>)
    requires Distinct(links)
    ensures Distinct(Candidates(links))
  {
    FilterDistinct(links, (l: Link) => l.usable && l.ready);
    FilterDistinct(links, (l: Link) => l.usable);
  }

  lemma {:induction false} QuickestOfAll(cands: seq<Link>)
    requires cands != []
    ensures forall k :: k in cands ==> Latency(cands[Quickest(cands)]) <= Latency(k)
  {
  }

  /** The same in terms of the candidate list. */
  lemma ChosenFrom(s: State, len: nat, critical: bool)
    requires Distinct(Candidates(s.links))
    ensures var (cands, chosen) := (Candidates(s.links), Select(s, len, critical).1);
            && (chosen == [] <==> cands == [])
            && Distinct(chosen)
            && (forall l :: l in chosen ==> l in cands)
            && (|chosen| > 1 ==> critical || s.mode == Redundant)
            && (critical || s.mode == Redundant ==> chosen == cands)
            && (!critical && s.mode == LowestLatency ==>
                  forall l, k :: l in chosen && k in cands ==> Latency(l) <= Latency(k))
  {
    hide WeightedPick, ChargeAll, Latency, Quickest, Candidates;
    var cands := Candidates(s.links);
    if cands != [] { QuickestOfAll(cands); }
  }

  /**
   A packet is dropped only when nothing is usable.  Otherwise every chosen link is eligible, no link is chosen
   twice, copies are made only of critical packets or in redundant mode, where every eligible link gets one, and
   the lowest-latency choice is as quick as any.
   */
  lemma ServesEligible(s: State, len: nat, critical: bool)
    requires Distinct(s.links)
    ensures var chosen := Select(s, len, critical).1;
            && (chosen == [] <==> forall l :: l in s.links ==> !l.usable)
            && Distinct(chosen)
            && (forall l :: l in chosen ==> Eligible(l, s.links))
            && (|chosen| > 1 ==> critical || s.mode == Redundant)
            && (critical || s.mode == Redundant ==> forall l :: Eligible(l, s.links) ==> l in chosen)
            && (!critical && s.mode == LowestLatency ==>
                  forall l, k :: l in chosen && Eligible(k, s.links) ==> Latency(l) <= Latency(k))
  {
    hide Candidates, WeightedPick, ChargeAll, Eligible, Latency, Quickest, Distinct;
    var cands := Candidates(s.links);
    CandidatesDistinct(s.links);
    ChosenFrom(s, len, critical);
    forall l ensures l in cands <==> Eligible(l, s.links) { CandidatesEligible(s.links, l); }
  }

  // ----- the books

  /** Packets and bytes charged to a link. */
  function Books(ledger: Ledger, id: int): (nat, nat) {
    if id in ledger then (ledger[id].packets, ledger[id].bytes) else (0, 0)
  }

  function Plus(a: (nat, nat), b: (nat, nat)): (nat, nat) {
    (a.0 + b.0, a.1 + b.1)
  }

  predicate Serves(chosen: seq<Link>, id: int) {
    exists i :: 0 <= i < |chosen| && chosen[i].id == id
  }

  lemma ServesOnce(chosen: seq<Link>, id: int)
    requires chosen != [] && Distinct(chosen)
    ensures Serves(chosen, id) <==> Serves(chosen[..|chosen| - 1], id) || chosen[|chosen| - 1].id == id
    ensures !(Serves(chosen[..|chosen| - 1], id) && chosen[|chosen| - 1].id == id)
  {
    var n := |chosen| - 1;
    assert forall i :: 0 <= i < n ==> chosen[..n][i] == chosen[i];
  }

  lemma NoService(id: int)
    ensures !Serves([], id)
  {
  }

  lemma ChargeBooks(ledger: Ledger, l: Link, len: nat, id: int)
    ensures Books(Charge(ledger, l, len), id) == Plus(Books(ledger, id), if l.id == id then (1, len) else (0, 0))
  {
  }

  lemma {:induction false} ChargeAllBooks(ledger: Ledger, chosen: seq<Link>, len: nat, id: int)
    requires Distinct(chosen)
    ensures Books(ChargeAll(ledger, chosen, len), id)
         == Plus(Books(ledger, id), if Serves(chosen, id) then (1, len) else (0, 0))
  {
    hide Charge, Books, Serves;
    if chosen == [] {
      NoService(id);
    } else {
      var rest, l := chosen[..|chosen| - 1], chosen[|chosen| - 1];
      ServesOnce(chosen, id);
      ChargeAllBooks(ledger, rest, len, id);
      ChargeBooks(ChargeAll(ledger, rest, len), l, len, id);
    }
  }

  lemma {:induction false} CreditedBooks(pl: Ledger, cands: seq<Link>, quantum: int, k: nat, id: int)
    requires k <= |cands| && TotalWeight(cands) > 0.0
    ensures Books(Credited(pl, cands, quantum, k), id) == Books(pl, id)
  {
    if k > 0 { CreditedBooks(pl, cands, quantum, k - 1, id); }
  }

  lemma {:induction false} PickBooks(pl: Ledger, cands: seq<Link>, cursor: nat, len: nat, quantum: int, tries: nat,
                                     id: int)
    requires cands != [] && TotalWeight(cands) > 0.0
    ensures Books(PickWithin(pl, cands, cursor, len, quantum, tries).ledger, id) == Books(pl, id)
    decreases tries
  {
    hide Scan, TotalWeight;
    if tries > 0 && Scan(pl, cands, cursor, len, 0) == None {
      CreditedBooks(pl, cands, quantum, |cands|, id);
      hide Credited;
      PickBooks(Credit(pl, cands, quantum), cands, cursor, len, quantum, tries - 1, id);
    }
  }

  /** Credit and debt never touch the books: a packet is charged to exactly the links it was given to. */
  lemma ChosenPay(s: State, len: nat, critical: bool, id: int)
    requires Distinct(s.links)
    ensures var (s', chosen) := Select(s, len, critical);
            Books(s'.ledger, id) == Plus(Books(s.ledger, id), if Serves(chosen, id) then (1, len) else (0, 0))
  {
    ServesEligible(s, len, critical);
    hide Eligible, Books, Serves, Distinct;
    var cands := Candidates(s.links);
    if cands != [] {
      var weighted := |cands| > 1 && !critical && s.mode == Weighted;
      if TotalWeight(cands) > 0.0 { PickBooks(s.ledger, cands, s.cursor, len, s.quantum, Tries(cands), id); }
      var ledger := if weighted then WeightedPick(cands, s.ledger, s.cursor, s.quantum, len).ledger else s.ledger;
      assert Books(ledger, id) == Books(s.ledger, id) by { hide TotalWeight, PickWithin; }
      hide WeightedPick, PickWithin, TotalWeight, Candidates;
      var chosen := Select(s, len, critical).1;
      assert Select(s, len, critical).0.ledger == ChargeAll(ledger, chosen, len);
      ChargeAllBooks(ledger, chosen, len, id);
    } else {
      NoService(id);
    }
  }

  /** What a link is given by one event. */
  function Service(s: State, ev: Event, id: int): (nat, nat) {
    if ev.Packet? && Serves(Select(s, ev.len, ev.critical).1, id) then (1, ev.len) else (0, 0)
  }

  /** What a link carries over a run, read off the choices. */
  function Served(s: State, evs: seq<Event>, id: int): (nat, nat)
    decreases |evs|
  {
    if evs == [] then (0, 0) else Plus(Service(s, evs[0], id), Served(Apply(s, evs[0]), evs[1..], id))
  }

  function Offered(evs: seq<Event>): nat {
    if evs == [] then 0 else (if evs[0].Packet? then 1 else 0) + Offered(evs[1..])
  }

  /** Every link set of the run, the first included, names each link once. */
  predicate AlwaysDistinct(s: State, evs: seq<Event>) {
    && Distinct(s.links)
    && forall i :: 0 <= i < |evs| ==> (evs[i].Replace? || evs[i].Rehealth?) ==> Distinct(evs[i].links)
  }

  lemma {:induction false} SyncedBooks(ledger: Ledger, links: seq<Link>, id: int)
    ensures Books(Synced(ledger, links), id) == Books(ledger, id)
  {
    if links != [] { SyncedBooks(ledger, links[..|links| - 1], id); }
  }

  lemma ApplyBooks(s: State, ev: Event, id: int)
    requires Distinct(s.links)
    ensures Books(Apply(s, ev).ledger, id) == Plus(Books(s.ledger, id), Service(s, ev, id))
  {
    hide Books, Serves, Select, Distinct;
    match ev
    case Packet(len, critical) => ChosenPay(s, len, critical, id);
    case Replace(links) => SyncedBooks(s.ledger, links, id);
    case Rehealth(links) =>
  }

  lemma PlacedOrDropped(s: State, ev: Event)
    ensures Apply(s, ev).packets + Apply(s, ev).dropped == s.packets + s.dropped + if ev.Packet? then 1 else 0
  {
    hide Candidates, WeightedPick, ChargeAll, Quickest;
  }

  lemma StillDistinct(s: State, ev: Event)
    requires Distinct(s.links) && ((ev.Replace? || ev.Rehealth?) ==> Distinct(ev.links))
    ensures Distinct(Apply(s, ev).links)
  {
    hide Candidates, WeightedPick, ChargeAll, Quickest;
  }

  /**
   The statistics are true over every run, whatever links come and go: each link's counters grow by exactly the
   packets it was chosen for, and every packet offered was either placed or counted as dropped.
   */
  lemma {:induction false} StatisticsAreTrue(s: State, evs: seq<Event>, id: int)
    requires AlwaysDistinct(s, evs)
    ensures Books(Run(s, evs).ledger, id) == Plus(Books(s.ledger, id), Served(s, evs, id))
    ensures Run(s, evs).packets + Run(s, evs).dropped == s.packets + s.dropped + Offered(evs)
    decreases |evs|
  {
    hide Books, Service, Apply, Distinct;
    if evs != [] {
      ApplyBooks(s, evs[0], id);
      PlacedOrDropped(s, evs[0]);
      StillDistinct(s, evs[0]);
      StatisticsAreTrue(Apply(s, evs[0]), evs[1..], id);
    }
  }

  // ----- the totals

  /** Packets placed, their bytes, packets sent more than once, and packets dropped. */
  datatype Totals = Totals(packets: nat, bytes: nat, duplicated: nat, dropped: nat)

  function Add(a: Totals, b: Totals): Totals {
    Totals(a.packets + b.packets, a.bytes + b.bytes, a.duplicated + b.duplicated, a.dropped + b.dropped)
  }

  /** What one event adds, read off the choice made. */
  function OneTotal(s: State, ev: Event): Totals {
    if !ev.Packet? then Totals(0, 0, 0, 0)
    else
      var chosen := Select(s, ev.len, ev.critical).1;
      if chosen == [] then Totals(0, 0, 0, 1) else Totals(1, ev.len, if |chosen| >= 2 then 1 else 0, 0)
  }

  function TotalOf(s: State, evs: seq<Event>): Totals
    decreases |evs|
  {
    if evs == [] then Totals(0, 0, 0, 0) else Add(OneTotal(s, evs[0]), TotalOf(Apply(s, evs[0]), evs[1..]))
  }

  function Totalled(s: State): Totals {
    Totals(s.packets, s.bytes, s.duplicated, s.dropped)
  }

  lemma ApplyTotals(s: State, ev: Event)
    ensures Totalled(Apply(s, ev)) == Add(Totalled(s), OneTotal(s, ev))
  {
    hide Candidates, WeightedPick, ChargeAll, Quickest;
  }

  /** The totals are sums over the choices made, over every run. */
  lemma {:induction false} TotalsAreTrue(s: State, evs: seq<Event>)
    ensures Totalled(Run(s, evs)) == Add(Totalled(s), TotalOf(s, evs))
    decreases |evs|
  {
    hide Apply, OneTotal;
    if evs != [] {
      ApplyTotals(s, evs[0]);
      TotalsAreTrue(Apply(s, evs[0]), evs[1..]);
    }
  }

  // ----- the lowest-latency choice, in milliseconds

  /**
   The lowest-latency mode takes the first candidate that no other beats, where delays of a hundredth of a millisecond
   or less count as equal.
   */
  lemma QuickestExactly(s: State, len: nat)
    requires s.mode == LowestLatency && Candidates(s.links) != []
    ensures var cands := Candidates(s.links);
            exists i :: 0 <= i < |cands| && Select(s, len, false).1 == [cands[i]]
              && (forall j :: 0 <= j < |cands| ==> cands[i].rtt <= 0.01 || cands[i].rtt <= cands[j].rtt)
              && (forall j :: 0 <= j < i ==> cands[j].rtt > 0.01 && cands[j].rtt > cands[i].rtt)
  {
    hide Candidates, WeightedPick, ChargeAll, Quickest;
    var cands := Candidates(s.links);
    var i := if |cands| == 1 then 0 else Quickest(cands);
    assert Select(s, len, false).1 == [cands[i]];
  }

  // ----- new links

  lemma ServesEither(links: seq<Link>, id: int)
    requires links != []
    ensures Serves(links, id) <==> Serves(links[..|links| - 1], id) || links[|links| - 1].id == id
  {
    var n := |links| - 1;
    assert forall i :: 0 <= i < n ==> links[..n][i] == links[i];
  }

  lemma {:induction false} SyncedKnows(ledger: Ledger, links: seq<Link>, id: int)
    ensures var synced := Synced(ledger, links);
            && (id in synced <==> id in ledger || Serves(links, id))
            && (id in ledger ==> synced[id] == ledger[id])
            && (id !in ledger && id in synced ==> synced[id] == Counters(0, 0, 0.0, 0))
  {
    hide Serves;
    if links == [] {
      NoService(id);
    } else {
      SyncedKnows(ledger, links[..|links| - 1], id);
      ServesEither(links, id);
    }
  }

  /** New links start with nothing on their books, known ones keep theirs, and the round starts over at the first. */
  lemma Relinked(s: State, links: seq<Link>, id: int)
    ensures var s' := SetLinks(s, links);
            && s'.links == links && s'.cursor == 0 && Totalled(s') == Totalled(s)
            && (id in s'.ledger <==> id in s.ledger || Serves(links, id))
            && (id in s.ledger ==> s'.ledger[id] == s.ledger[id])
            && (id !in s.ledger && id in s'.ledger ==> s'.ledger[id] == Counters(0, 0, 0.0, 0))
  {
    SyncedKnows(s.ledger, links, id);
  }

  // ----- taking turns

  /** A weighted pick among two or more candidates that settles on number k without falling back. */
  predicate Picks(s: State, len: nat, k: nat) {
    && s.mode == Weighted && |Candidates(s.links)| >= 2 && TotalWeight(Candidates(s.links)) > 0.0
    && k < |Candidates(s.links)|
    && PickWithin(s.ledger, Candidates(s.links), s.cursor, len, s.quantum, Tries(Candidates(s.links))).index == Some(k)
  }

  lemma {:induction false} PickLeaves(s: State, len: nat, k: nat)
    requires Picks(s, len, k)
    ensures var cands, s' := Candidates(s.links), Select(s, len, false).0;
            && s'.links == s.links && s'.mode == s.mode && s'.quantum == s.quantum
            && s'.cursor == (k + 1) % |cands| && Select(s, len, false).1 == [cands[k]]
  {
    hide Candidates, TotalWeight, PickWithin, ChargeAll;
  }

  lemma {:induction false} PickAtOnce(s: State, len: nat, i: nat)
    requires s.mode == Weighted && |Candidates(s.links)| >= 2 && TotalWeight(Candidates(s.links)) > 0.0
    requires Scan(s.ledger, Candidates(s.links), s.cursor, len, 0) == Some(i)
    ensures Picks(s, len, i)
  {
    hide Candidates, TotalWeight, Scan;
  }

  lemma Wrap(x: nat, n: nat)
    requires x < 2 * n
    ensures x % n == if x < n then x else x - n
  {
    if x >= n { DivMod(x, 1, n, x - n); }
  }

  /** After k has been served every candidate is some way from the cursor, and k itself the whole way round. */
  lemma Distance(n: nat, k: nat, j: nat) returns (o: nat)
    requires k < n && j < n
    ensures o < n && ((k + 1) % n + o) % n == j
    ensures j != k ==> o < n - 1
  {
    Wrap(k + 1, n);
    var c := (k + 1) % n;
    o := if j >= c then j - c else j + n - c;
    Wrap(c + o, n);
  }

  lemma WholeRound(n: nat, k: nat, p: nat)
    requires k < n && p < n && ((k + 1) % n + p) % n == k
    ensures p == n - 1
  {
    Wrap(k + 1, n);
    Wrap((k + 1) % n + p, n);
  }

  /** The scan from the cursor after k finds someone else whenever anyone else can pay. */
  lemma {:induction false} ScansPast(pl: Ledger, cands: seq<Link>, len: nat, k: nat, j: nat) returns (i: nat)
    requires k < |cands| && j < |cands| && j != k && CanPay(pl, cands[j], len)
    ensures i < |cands| && i != k && CanPay(pl, cands[i], len)
    ensures Scan(pl, cands, (k + 1) % |cands|, len, 0) == Some(i)
  {
    hide CanPay, Scan;
    var n, cursor := |cands|, (k + 1) % |cands|;
    ScanNearest(pl, cands, cursor, len, 0);
    var o := Distance(n, k, j);
    assert At(cands, cursor, o) == j;
    i := Scan(pl, cands, cursor, len, 0).value;
    var p :| 0 <= p < n && At(cands, cursor, p) == i && CanPay(pl, cands[i], len)
             && forall q :: 0 <= q < p ==> !CanPay(pl, cands[At(cands, cursor, q)], len);
    assert p <= o;
    if i == k { WholeRound(n, k, p); }
  }

  /**
   Taking turns: the link just served comes last.  If another candidate can pay for the next packet, that packet goes
   to one that can, and not to the link that got this one.
   */
  lemma {:induction false} LastInLine(s: State, len: nat, next: nat, k: nat, j: nat)
    requires Picks(s, len, k) && j < |Candidates(s.links)| && j != k
    requires CanPay(Select(s, len, false).0.ledger, Candidates(s.links)[j], next)
    ensures var cands, s' := Candidates(s.links), Select(s, len, false).0;
            exists i :: 0 <= i < |cands| && i != k && Picks(s', next, i) && CanPay(s'.ledger, cands[i], next)
              && Select(s', next, false).1 == [cands[i]]
  {
    PickLeaves(s, len, k);
    var cands, s' := Candidates(s.links), Select(s, len, false).0;
    assert TotalWeight(Candidates(s'.links)) > 0.0;
    hide Candidates, TotalWeight, CanPay, Select, Scan, Picks;
    var i := ScansPast(s'.ledger, cands, next, k, j);
    PickAtOnce(s', next, i);
    PickLeaves(s', next, i);
  }

  lemma {:induction false} SelectsFallback(s: State, len: nat)
    requires s.mode == Weighted && |Candidates(s.links)| >= 2 && TotalWeight(Candidates(s.links)) > 0.0
    requires var cands := Candidates(s.links);
             PickWithin(s.ledger, cands, s.cursor, len, s.quantum, Tries(cands)).index == None
    ensures var cands := Candidates(s.links);
            Select(s, len, false).1 == [cands[Weightiest(cands)]] && Select(s, len, false).0.cursor == s.cursor
  {
    hide Candidates, TotalWeight, PickWithin, ChargeAll, Weightiest;
  }

  /**
   A packet too long for the whole retry budget still goes out: over the first of the heaviest candidates, unpaid for,
   and the cursor stays where it is.
   */
  lemma {:induction false} OversizeGoesToHeaviest(s: State, len: nat)
    requires s.mode == Weighted && s.quantum > 0 && Distinct(s.links) && |Candidates(s.links)| >= 2
    requires TotalWeight(Candidates(s.links)) > 0.0
    requires var cands := Candidates(s.links);
             forall i :: 0 <= i < |cands| ==>
               Deficit(s.ledger, cands[i].id) + Times(2 * |cands| + 1, CreditOf(cands, cands[i], s.quantum))
                 < len as real
    ensures var cands := Candidates(s.links);
            exists i :: 0 <= i < |cands| && Select(s, len, false).1 == [cands[i]]
              && (forall j :: 0 <= j < |cands| ==> Weight(cands[j]) <= Weight(cands[i]))
              && (forall j :: 0 <= j < i ==> Weight(cands[j]) < Weight(cands[i]))
    ensures Select(s, len, false).0.cursor == s.cursor
  {
    hide *;
    var cands := Candidates(s.links);
    CandidatesBondable(s.links);
    FallbackExactly(s.ledger, cands, s.cursor, len, s.quantum);
    SelectsFallback(s, len);
    assert Select(s, len, false).1 == [cands[Weightiest(cands)]];
  }
}
