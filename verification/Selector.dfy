/** Route failover, turbobond/transport/selector.py, as functions on values and what every run keeps. */
module Selector {
  datatype Route = Direct | Shadow

  datatype Status = Status(available: bool, healthy: bool, active: bool, failures: nat, successes: nat)

  /** `failoverAfter` and `auto` are the policy; `hook` says whether an availability check is installed. */
  datatype State = State(auto: bool, failoverAfter: int, hook: bool, active: Route, preferred: Route, switches: nat,
                         statuses: map<Route, Status>)

  const RECOVERY_THRESHOLD: nat := 4

  /** What a check meets: the availability hook's answer or exception, then the probe's. */
  datatype Availability = Says(up: bool) | HookRaised
  datatype Reply = Measured(reachable: bool, loss: real) | ProbeRaised
  datatype Check = Check(availability: Availability, reply: Reply)

  function Other(r: Route): Route {
    if r == Direct then Shadow else Direct
  }

  ghost predicate Complete(s: State) {
    Direct in s.statuses && Shadow in s.statuses
  }

  function Of(s: State, r: Route): Status
    requires Complete(s)
  {
    match r
    case Direct => s.statuses[Direct]
    case Shadow => s.statuses[Shadow]
  }

  predicate Passes(hook: bool, c: Check) {
    (!hook || c.availability == Says(true)) && c.reply.Measured? && c.reply.reachable && c.reply.loss < 50.0
  }

  function Fail(st: Status): Status {
    st.(healthy := false, successes := 0, failures := st.failures + 1)
  }

  /** `check_route` followed by the exception handling of `check_all`. */
  function CheckRoute(hook: bool, st: Status, c: Check): Status {
    if hook && c.availability.HookRaised? then st.(healthy := false)
    else if hook && !c.availability.up then Fail(st.(available := false))
    else
      var up := st.(available := true);
      match c.reply
      case ProbeRaised => up.(healthy := false)
      case Measured(reachable, loss) =>
        if reachable && loss < 50.0 then up.(healthy := true, failures := 0, successes := st.successes + 1)
        else Fail(up)
  }

  function CheckAll(s: State, direct: Check, shadow: Check): State
    requires Complete(s)
  {
    s.(statuses := map[Direct := CheckRoute(s.hook, Of(s, Direct), direct),
                       Shadow := CheckRoute(s.hook, Of(s, Shadow), shadow)])
  }

  function Flagged(st: Status, on: bool): Status {
    st.(active := on)
  }

  /** `switch_to`; `works` is false when the switch callback raises. */
  function SwitchTo(s: State, r: Route, works: bool): (State, bool)
    requires Complete(s)
  {
    if s.active == r then (s, true)
    else if (!Of(s, r).available && s.hook) || !works then (s, false)
    else
      (s.(active := r, switches := s.switches + 1,
          statuses := map[Direct := Flagged(Of(s, Direct), r == Direct),
                          Shadow := Flagged(Of(s, Shadow), r == Shadow)]), true)
  }

  function SetPreferred(s: State, r: Route, works: bool): (State, bool)
    requires Complete(s)
  {
    SwitchTo(s.(preferred := r), r, works)
  }

  datatype Round = Round(direct: Check, shadow: Check, works: bool)

  function Evaluate(s: State, e: Round): State
    requires Complete(s)
  {
    var s1 := CheckAll(s, e.direct, e.shadow);
    if !s1.auto then s1
    else if Of(s1, s1.active).failures >= s1.failoverAfter then
      var alternate := Other(s1.active);
      if Of(s1, alternate).available && Of(s1, alternate).healthy then SwitchTo(s1, alternate, e.works).0
      else s1
    else if s1.active != s1.preferred && Of(s1, s1.preferred).available && Of(s1, s1.preferred).healthy
            && Of(s1, s1.preferred).successes >= RECOVERY_THRESHOLD then
      SwitchTo(s1, s1.preferred, e.works).0
    else s1
  }

  const NEW_STATUS := Status(false, false, false, 0, 0)

  function NewState(auto: bool, failoverAfter: int, hook: bool, route: Route): State {
    State(auto, failoverAfter, hook, route, route, 0,
          map[Direct := Flagged(NEW_STATUS, route == Direct), Shadow := Flagged(NEW_STATUS, route == Shadow)])
  }

  // ----- what every run keeps

  datatype Event = Tick(round: Round) | Probe(direct: Check, shadow: Check) | Prefer(route: Route, works: bool)
                 | Force(route: Route, works: bool)

  ghost predicate Coherent(st: Status) {
    (st.healthy ==> st.failures == 0) && (st.failures == 0 || st.successes == 0)
  }

  /** Exactly one route carries the active flag, the one in force; no route both fails and succeeds. */
  ghost predicate Valid(s: State) {
    && Complete(s) && s.statuses.Keys == {Direct, Shadow}
    && (forall r :: (Of(s, r).active <==> r == s.active) && Coherent(Of(s, r)))
  }

  function Apply(s: State, ev: Event): State
    requires Complete(s)
  {
    match ev
    case Tick(round) => Evaluate(s, round)
    case Probe(direct, shadow) => CheckAll(s, direct, shadow)
    case Prefer(route, works) => SetPreferred(s, route, works).0
    case Force(route, works) => SwitchTo(s, route, works).0
  }

  lemma CheckCoherent(hook: bool, st: Status, c: Check)
    requires Coherent(st)
    ensures var st' := CheckRoute(hook, st, c);
            && Coherent(st') && st'.active == st.active
            && st'.failures <= st.failures + 1 && st'.successes <= st.successes + 1
            && (st'.healthy <==> Passes(hook, c))
  {
  }

  lemma CheckAllValid(s: State, direct: Check, shadow: Check)
    requires Valid(s)
    ensures Valid(CheckAll(s, direct, shadow))
  {
    CheckCoherent(s.hook, Of(s, Direct), direct);
    CheckCoherent(s.hook, Of(s, Shadow), shadow);
  }

  lemma SwitchValid(s: State, r: Route, works: bool)
    requires Valid(s)
    ensures Valid(SwitchTo(s, r, works).0)
    ensures SwitchTo(s, r, works).1 <==> SwitchTo(s, r, works).0.active == r
  {
    var s' := SwitchTo(s, r, works).0;
    forall q ensures (Of(s', q).active <==> q == s'.active) && Coherent(Of(s', q)) {
      assert Coherent(Of(s, q));
    }
  }

  lemma PreferValid(s: State, route: Route)
    requires Valid(s)
    ensures Valid(s.(preferred := route))
  {
    forall r ensures Of(s.(preferred := route), r) == Of(s, r) { }
  }

  lemma ApplyValid(s: State, ev: Event)
    requires Valid(s)
    ensures Valid(Apply(s, ev))
  {
    assert Complete(s);
    hide Valid, SwitchTo, CheckAll;
    match ev
    case Tick(round) =>
      CheckAllValid(s, round.direct, round.shadow);
      var s1 := CheckAll(s, round.direct, round.shadow);
      SwitchValid(s1, Other(s1.active), round.works);
      SwitchValid(s1, s1.preferred, round.works);
    case Probe(direct, shadow) => CheckAllValid(s, direct, shadow);
    case Prefer(route, works) =>
      PreferValid(s, route);
      SwitchValid(s.(preferred := route), route, works);
    case Force(route, works) => SwitchValid(s, route, works);
  }

  ghost function Run(s: State, evs: seq<Event>): State
    requires Valid(s)
    decreases |evs|
  {
    if evs == [] then s
    else
      ApplyValid(s, evs[0]);
      Run(Apply(s, evs[0]), evs[1..])
  }

  /** The invariant holds throughout every run of a new selector. */
  lemma {:induction false} RunValid(s: State, evs: seq<Event>)
    requires Valid(s)
    ensures Valid(Run(s, evs))
    decreases |evs|
  {
    if evs != [] {
      ApplyValid(s, evs[0]);
      hide Apply;
      RunValid(Apply(s, evs[0]), evs[1..]);
    }
  }

  /** After an evaluation a route that has failed often enough is still active only if it had nowhere to go. */
  lemma FailingRouteStays(s: State, e: Round)
    requires Valid(s) && s.auto
    ensures var s' := Evaluate(s, e);
            s'.statuses.Keys == {Direct, Shadow} && (Of(s', s'.active).failures >= s.failoverAfter >= 1 ==>
              s'.active == s.active
              && (!e.works || !Of(s', Other(s'.active)).available || !Of(s', Other(s'.active)).healthy))
  {
    CheckAllValid(s, e.direct, e.shadow);
  }

  // ----- no flapping

  lemma EvaluateComplete(s: State, e: Round)
    requires Complete(s)
    ensures Complete(Evaluate(s, e))
  {
  }

  function Rounds(s: State, es: seq<Round>): State
    requires Complete(s)
    decreases |es|
  {
    if es == [] then s
    else
      EvaluateComplete(s, es[0]);
      Rounds(Evaluate(s, es[0]), es[1..])
  }

  function Min(a: int, b: int): int {
    if a < b then a else b
  }

  /** Since the switch k rounds ago the active route failed at most k times and the preferred one passed at most k. */
  ghost predicate Calm(s: State, k: nat) {
    && Valid(s)
    && Of(s, s.active).failures <= k
    && (s.active != s.preferred ==> Of(s, s.preferred).successes <= k)
  }

  /** A switch leaves the active route without failures, and the preferred one, if different, without successes. */
  lemma SwitchCalms(s: State, e: Round)
    requires Valid(s) && s.failoverAfter >= 1 && Evaluate(s, e).switches != s.switches
    ensures Calm(Evaluate(s, e), 0) && Evaluate(s, e).switches == s.switches + 1
  {
    ApplyValid(s, Tick(e));
    CheckAllValid(s, e.direct, e.shadow);
    assert Apply(s, Tick(e)) == Evaluate(s, e);
    var s1 := CheckAll(s, e.direct, e.shadow);
    var s' := Evaluate(s, e);
    assert Coherent(Of(s1, Direct)) && Coherent(Of(s1, Shadow));
    hide Valid, CheckAll, Coherent;
  }

  lemma CalmRound(s: State, e: Round, k: nat)
    requires Calm(s, k) && k + 1 < Min(s.failoverAfter, RECOVERY_THRESHOLD)
    ensures Calm(Evaluate(s, e), k + 1) && Evaluate(s, e).switches == s.switches
  {
    ApplyValid(s, Tick(e));
    assert Apply(s, Tick(e)) == Evaluate(s, e);
    CheckCoherent(s.hook, Of(s, Direct), e.direct);
    CheckCoherent(s.hook, Of(s, Shadow), e.shadow);
    assert Coherent(Of(s, Direct)) && Coherent(Of(s, Shadow));
    hide CheckRoute, Valid;
  }

  lemma {:induction false} CalmRounds(s: State, es: seq<Round>, k: nat)
    requires Calm(s, k) && k + |es| < Min(s.failoverAfter, RECOVERY_THRESHOLD)
    ensures Rounds(s, es).switches == s.switches
    decreases |es|
  {
    if es != [] {
      CalmRound(s, es[0], k);
      var s1 := Evaluate(s, es[0]);
      assert s1.failoverAfter == s.failoverAfter;
      hide Evaluate, Calm;
      CalmRounds(s1, es[1..], k + 1);
    }
  }

  /** Failover never flaps: after an automatic switch the next min(F, 4) - 1 rounds cannot switch again. */
  lemma {:induction false} NoFlapping(s: State, e: Round, es: seq<Round>)
    requires Valid(s) && s.failoverAfter >= 1 && Evaluate(s, e).switches != s.switches
    requires |es| < Min(s.failoverAfter, 4)
    ensures Complete(Evaluate(s, e)) && Rounds(Evaluate(s, e), es).switches == s.switches + 1
  {
    SwitchCalms(s, e);
    assert Evaluate(s, e).failoverAfter == s.failoverAfter;
    hide Evaluate;
    CalmRounds(Evaluate(s, e), es, 0);
  }

  // ----- coming home

  predicate PrefersPass(s: State, e: Round) {
    e.works && Passes(s.hook, if s.preferred == Direct then e.direct else e.shadow)
  }

  /** k good rounds in a row: the preferred route is in force, or has at least k successes and no failure. */
  ghost predicate Returning(s: State, k: nat) {
    && Valid(s) && s.auto && s.failoverAfter >= 1
    && (s.active == s.preferred || Of(s, s.preferred).successes >= k)
    && (k > 0 ==> Of(s, s.preferred).failures == 0)
    && (k >= RECOVERY_THRESHOLD ==> s.active == s.preferred)
  }

  lemma GoodRound(s: State, e: Round, k: nat)
    requires Returning(s, k) && PrefersPass(s, e)
    ensures Returning(Evaluate(s, e), k + 1)
    ensures Evaluate(s, e).preferred == s.preferred && Evaluate(s, e).hook == s.hook
  {
    ApplyValid(s, Tick(e));
    assert Apply(s, Tick(e)) == Evaluate(s, e);
    hide Valid;
  }

  lemma {:induction false} GoodRounds(s: State, es: seq<Round>, k: nat)
    requires Returning(s, k) && forall i :: 0 <= i < |es| ==> PrefersPass(s, es[i])
    ensures Returning(Rounds(s, es), k + |es|) && Rounds(s, es).preferred == s.preferred
    decreases |es|
  {
    if es != [] {
      assert PrefersPass(s, es[0]);
      GoodRound(s, es[0], k);
      var s1 := Evaluate(s, es[0]);
      assert forall i :: 0 <= i < |es[1..]| ==> PrefersPass(s1, es[1..][i]);
      hide Evaluate, Returning;
      GoodRounds(s1, es[1..], k + 1);
    }
  }

  /** Whatever happened before, four rounds in which the preferred route passes bring it back into force. */
  lemma {:induction false} ComesHome(s: State, es: seq<Round>)
    requires Valid(s) && s.auto && s.failoverAfter >= 1 && |es| >= 4
    requires forall i :: 0 <= i < |es| ==> PrefersPass(s, es[i])
    ensures Rounds(s, es).active == s.preferred
  {
    GoodRounds(s, es, 0);
  }

  /**
   Asking for a route that is in force asks for nothing; any other switch takes a working callback and an available
   route.
   */
  lemma SwitchExactly(s: State, r: Route, works: bool)
    requires Valid(s)
    ensures var (s', ok) := SwitchTo(s, r, works);
            && (ok <==> s.active == r || (works && (!s.hook || Of(s, r).available)))
            && (!ok || s.active == r ==> s' == s)
            && (ok && s.active != r ==>
                  && s'.active == r && s'.preferred == s.preferred && s'.switches == s.switches + 1
                  && Of(s', r) == Of(s, r).(active := true) && Of(s', Other(r)) == Of(s, Other(r)).(active := false))
  {
    hide Coherent;
  }

  /**
   The operator's preference sticks, whether or not the traffic can be moved at once: four rounds in which that route
   passes bring it into force.
   */
  lemma {:induction false} PreferenceHolds(s: State, r: Route, works: bool, es: seq<Round>)
    requires Valid(s) && s.auto && s.failoverAfter >= 1 && |es| >= 4
    requires forall i :: 0 <= i < |es| ==>
               es[i].works && Passes(s.hook, if r == Direct then es[i].direct else es[i].shadow)
    ensures var s' := SetPreferred(s, r, works).0;
            Complete(s') && s'.preferred == r && Rounds(s', es).active == r
  {
    PreferValid(s, r);
    SwitchValid(s.(preferred := r), r, works);
    SwitchExactly(s.(preferred := r), r, works);
    hide SwitchTo, Valid;
    var s' := SetPreferred(s, r, works).0;
    forall i | 0 <= i < |es| ensures PrefersPass(s', es[i]) { }
    ComesHome(s', es);
  }

  /** A new selector is in a valid state on its default route, with nothing checked and nothing counted yet. */
  lemma NewIsValid(auto: bool, failoverAfter: int, hook: bool, route: Route)
    ensures var s := NewState(auto, failoverAfter, hook, route);
            && Valid(s) && s.active == route && s.preferred == route && s.switches == 0
            && s.auto == auto && s.failoverAfter == failoverAfter && s.hook == hook
            && forall r :: !Of(s, r).available && !Of(s, r).healthy && Of(s, r).failures == Of(s, r).successes == 0
  {
  }

  // ----- failing over

  /** A check the route fails: the hook says it is down, or a probe measured no answer or half the packets lost. */
  predicate Fails(hook: bool, c: Check) {
    if hook && c.availability == Says(false) then true
    else (!hook || c.availability == Says(true)) && c.reply.Measured? && (!c.reply.reachable || c.reply.loss >= 50.0)
  }

  /**
   What one check does to the streaks: a pass adds one success and ends a row of failures, a failure adds one and ends a
   row of successes, and an exception, in the hook or in the probe, leaves both as they are.
   */
  lemma StreaksExactly(hook: bool, st: Status, c: Check)
    ensures var st' := CheckRoute(hook, st, c);
            && (Passes(hook, c) ==>
                  st'.failures == 0 && st'.successes == st.successes + 1 && st'.healthy && st'.available)
            && (Fails(hook, c) ==> st'.failures == st.failures + 1 && st'.successes == 0 && !st'.healthy)
            && (!Passes(hook, c) && !Fails(hook, c) ==>
                  st'.failures == st.failures && st'.successes == st.successes && !st'.healthy)
            && (hook && c.availability.HookRaised? ==> st'.available == st.available)
            && (!(hook && c.availability.HookRaised?) ==> (st'.available <==> !hook || c.availability.up))
  {
  }

  function Checks(hook: bool, st: Status, cs: seq<Check>): Status
    decreases |cs|
  {
    if cs == [] then st else Checks(hook, CheckRoute(hook, st, cs[0]), cs[1..])
  }

  /** k failed checks in a row raise the count by exactly k, whatever it was. */
  lemma {:induction false} FailuresAddUp(hook: bool, st: Status, cs: seq<Check>)
    requires forall i :: 0 <= i < |cs| ==> Fails(hook, cs[i])
    ensures Checks(hook, st, cs).failures == st.failures + |cs|
    ensures cs != [] ==> Checks(hook, st, cs).successes == 0 && !Checks(hook, st, cs).healthy
    decreases |cs|
  {
    if cs != [] {
      StreaksExactly(hook, st, cs[0]);
      hide CheckRoute, Fails;
      FailuresAddUp(hook, CheckRoute(hook, st, cs[0]), cs[1..]);
      assert cs[1..] == [] ==> Checks(hook, st, cs) == CheckRoute(hook, st, cs[0]);
    }
  }

  /** A round in which this route fails, the other one passes, and a switch would work. */
  predicate Outage(hook: bool, r: Route, e: Round) {
    && Fails(hook, if r == Direct then e.direct else e.shadow)
    && Passes(hook, if r == Direct then e.shadow else e.direct)
    && e.works
  }

  /**
   After k rounds of an outage of route r that began with f failures on record: r is still in force while f + k is below
   the policy's limit, and the other route has taken over, once, from the round that reached it.
   */
  ghost predicate Outed(s: State, r: Route, f: nat, k: nat, switches: nat) {
    && Valid(s) && s.auto && s.failoverAfter >= 1
    && (k > 0 ==> Of(s, r).failures == f + k && Of(s, r).successes == 0)
    && (k == 0 ==> Of(s, r).failures == f)
    && if k == 0 || f + k < s.failoverAfter then s.active == r && s.switches == switches
       else s.active == Other(r) && s.switches == switches + 1 && Of(s, Other(r)).failures == 0
  }

  lemma OutedRound(s: State, e: Round, r: Route, f: nat, k: nat, switches: nat)
    requires Outed(s, r, f, k, switches) && Outage(s.hook, r, e)
    requires f + k + 1 < s.failoverAfter ==> s.preferred == r
    ensures Outed(Evaluate(s, e), r, f, k + 1, switches)
    ensures Evaluate(s, e).preferred == s.preferred && Evaluate(s, e).hook == s.hook
    ensures Evaluate(s, e).failoverAfter == s.failoverAfter
  {
    ApplyValid(s, Tick(e));
    assert Apply(s, Tick(e)) == Evaluate(s, e);
    StreaksExactly(s.hook, Of(s, Direct), e.direct);
    StreaksExactly(s.hook, Of(s, Shadow), e.shadow);
    hide CheckRoute, Valid, Passes, Fails;
  }

  lemma {:induction false} OutedRounds(s: State, es: seq<Round>, r: Route, f: nat, k: nat, switches: nat)
    requires Outed(s, r, f, k, switches) && forall i :: 0 <= i < |es| ==> Outage(s.hook, r, es[i])
    requires f + k + 1 < s.failoverAfter ==> s.preferred == r
    ensures Outed(Rounds(s, es), r, f, k + |es|, switches) && Rounds(s, es).failoverAfter == s.failoverAfter
    decreases |es|
  {
    if es != [] {
      assert Outage(s.hook, r, es[0]);
      OutedRound(s, es[0], r, f, k, switches);
      var s1 := Evaluate(s, es[0]);
      assert forall i :: 0 <= i < |es[1..]| ==> Outage(s1.hook, r, es[1..][i]);
      hide Evaluate, Outed, Outage;
      OutedRounds(s1, es[1..], r, f, k + 1, switches);
    }
  }

  /**
   Failover happens.  The preferred route in force, with f failures on record, fails |es| rounds in a row while the
   alternate passes them and the switch works: it is given up, by one switch, exactly when f + |es| reaches the
   policy's limit.
   */
  lemma {:induction false} FailsOver(s: State, es: seq<Round>)
    requires Valid(s) && s.auto && s.failoverAfter >= 1 && es != [] && s.active == s.preferred
    requires forall i :: 0 <= i < |es| ==> Outage(s.hook, s.active, es[i])
    ensures var s' := Rounds(s, es);
            if Of(s, s.active).failures + |es| < s.failoverAfter then s'.active == s.active && s'.switches == s.switches
            else s'.active == Other(s.active) && s'.switches == s.switches + 1
  {
    OutedRounds(s, es, s.active, Of(s, s.active).failures, 0, s.switches);
  }

  /**
   k rounds into an outage of route r: it is still in force, below the limit, or has been given up once and for all.
   */
  ghost predicate Leaving(s: State, r: Route, k: nat, switches: nat) {
    && Valid(s) && s.auto && s.failoverAfter >= 1
    && (k > 0 ==> Of(s, r).failures >= k && Of(s, r).successes == 0)
    && if s.active == r then s.switches == switches && (k > 0 ==> Of(s, r).failures < s.failoverAfter)
       else s.switches == switches + 1 && Of(s, Other(r)).failures == 0
  }

  lemma LeavingRound(s: State, e: Round, r: Route, k: nat, switches: nat)
    requires Leaving(s, r, k, switches) && Outage(s.hook, r, e)
    ensures Leaving(Evaluate(s, e), r, k + 1, switches)
    ensures Evaluate(s, e).hook == s.hook && Evaluate(s, e).failoverAfter == s.failoverAfter
  {
    ApplyValid(s, Tick(e));
    assert Apply(s, Tick(e)) == Evaluate(s, e);
    StreaksExactly(s.hook, Of(s, Direct), e.direct);
    StreaksExactly(s.hook, Of(s, Shadow), e.shadow);
    hide CheckRoute, Valid, Passes, Fails;
  }

  lemma {:induction false} LeavingRounds(s: State, es: seq<Round>, r: Route, k: nat, switches: nat)
    requires Leaving(s, r, k, switches) && forall i :: 0 <= i < |es| ==> Outage(s.hook, r, es[i])
    ensures Leaving(Rounds(s, es), r, k + |es|, switches) && Rounds(s, es).failoverAfter == s.failoverAfter
    decreases |es|
  {
    if es != [] {
      assert Outage(s.hook, r, es[0]);
      LeavingRound(s, es[0], r, k, switches);
      var s1 := Evaluate(s, es[0]);
      assert forall i :: 0 <= i < |es[1..]| ==> Outage(s1.hook, r, es[1..][i]);
      hide Evaluate, Leaving, Outage;
      LeavingRounds(s1, es[1..], r, k + 1, switches);
    }
  }

  /**
   Whichever route is preferred and whatever happened before, F rounds of an outage move the traffic, with one switch.
   */
  lemma {:induction false} OutageMovesTraffic(s: State, es: seq<Round>)
    requires Valid(s) && s.auto && 1 <= s.failoverAfter <= |es|
    requires forall i :: 0 <= i < |es| ==> Outage(s.hook, s.active, es[i])
    ensures Rounds(s, es).active == Other(s.active) && Rounds(s, es).switches == s.switches + 1
  {
    LeavingRounds(s, es, s.active, 0, s.switches);
  }

  /** From the start: a new selector leaves a default route that fails every round with exactly the F-th round. */
  lemma {:induction false} NewFailsOver(failoverAfter: int, hook: bool, route: Route, es: seq<Round>)
    requires failoverAfter >= 1 && es != []
    requires forall i :: 0 <= i < |es| ==> Outage(hook, route, es[i])
    ensures var s := NewState(true, failoverAfter, hook, route);
            Rounds(s, es).active == if |es| < failoverAfter then route else Other(route)
  {
    NewIsValid(true, failoverAfter, hook, route);
    hide NewState;
    FailsOver(NewState(true, failoverAfter, hook, route), es);
  }
}
