/** Link health and its hysteresis: turbobond/links/model.py and turbobond/links/monitor.py. */
module Monitor {
  datatype LinkState = Unknown | Up | Degraded | Down | Disabled

  datatype Health = Health(rtt: real, jitter: real, loss: real, failures: nat, successes: nat)

  datatype Link = Link(enabled: bool, state: LinkState, health: Health)

  /** One probe cycle as the monitor sees it: the operator's switch, and what the targets answered. */
  datatype Probe = Off | Reply(rtt: real, jitter: real, loss: real) | Silence

  const ALPHA: real := 0.3
  const FAIL_THRESHOLD: nat := 2
  const DEGRADE_THRESHOLD: nat := 1
  const RECOVER_THRESHOLD: nat := 3
  const DEGRADED_LOSS: real := 8.0
  const DEGRADED_RTT: real := 400.0
  const DEGRADED_JITTER: real := 80.0

  function Smooth(old_: real, sample: real): real {
    if old_ == 0.0 then sample else ALPHA * sample + (1.0 - ALPHA) * old_
  }

  function RecordSuccess(h: Health, rtt: real, jitter: real, loss: real): Health {
    Health(Smooth(h.rtt, rtt), Smooth(h.jitter, jitter), ALPHA * loss + (1.0 - ALPHA) * h.loss, 0, h.successes + 1)
  }

  function RecordFailure(h: Health): Health {
    var loss := h.loss * 0.7 + 100.0 * 0.3;
    h.(successes := 0, failures := h.failures + 1, loss := if loss < 100.0 then loss else 100.0)
  }

  function Evaluate(state: LinkState, h: Health): LinkState {
    if h.failures >= FAIL_THRESHOLD then Down
    else if h.failures >= DEGRADE_THRESHOLD then Degraded
    else if h.loss >= DEGRADED_LOSS || h.rtt >= DEGRADED_RTT || h.jitter >= DEGRADED_JITTER then Degraded
    else if (state == Down || state == Unknown) && h.successes < RECOVER_THRESHOLD then
      if h.successes > 0 then Degraded else Down
    else Up
  }

  function ProbeLink(l: Link, p: Probe): Link {
    match p
    case Off => Link(false, Disabled, l.health)
    case Reply(rtt, jitter, loss) =>
      var h := RecordSuccess(l.health, rtt, jitter, loss);
      Link(true, Evaluate(l.state, h), h)
    case Silence =>
      var h := RecordFailure(l.health);
      Link(true, Evaluate(l.state, h), h)
  }

  function Run(l: Link, ps: seq<Probe>): Link
    decreases |ps|
  {
    if ps == [] then l else Run(ProbeLink(l, ps[0]), ps[1..])
  }

  predicate Plausible(p: Probe) {
    p.Reply? ==> 0.0 <= p.loss <= 100.0
  }

  predicate Answers(ps: seq<Probe>) {
    forall i :: 0 <= i < |ps| ==> !ps[i].Silence? && Plausible(ps[i])
  }

  function Successes(ps: seq<Probe>): nat {
    if ps == [] then 0 else (if ps[0].Reply? then 1 else 0) + Successes(ps[1..])
  }

  /** 0.7 to the k: how far k answers can pull the loss average down. */
  function Decay(k: nat): (d: real)
    ensures d > 0.0
  {
    if k == 0 then 1.0 else 0.7 * Decay(k - 1)
  }

  /** A loss average after k answers that each report no loss at all. */
  function Faded(loss: real, k: nat): real {
    loss * Decay(k)
  }

  lemma Scale(a: real, b: real, d: real)
    requires a <= b && d >= 0.0
    ensures a * d <= b * d
  {
    assert (b - a) * d >= 0.0;
    assert b * d == a * d + (b - a) * d;
  }

  lemma DecayStep(before: real, after: real, k: nat)
    ensures after >= 0.7 * before ==> Faded(after, k) >= Faded(before, k + 1)
    ensures after >= before ==> Faded(after, k) >= Faded(before, k)
  {
    if after >= 0.7 * before {
      Scale(0.7 * before, after, Decay(k));
      assert (0.7 * before) * Decay(k) == before * (0.7 * Decay(k));
    }
    if after >= before { Scale(before, after, Decay(k)); }
  }

  lemma {:induction false} LossDecays(l: Link, ps: seq<Probe>)
    requires l.health.loss >= 0.0 && Answers(ps)
    ensures Run(l, ps).health.loss >= Faded(l.health.loss, Successes(ps))
    decreases |ps|
  {
    if ps != [] {
      var l1 := ProbeLink(l, ps[0]);
      assert Plausible(ps[0]);
      hide Faded;
      LossDecays(l1, ps[1..]);
      DecayStep(l.health.loss, l1.health.loss, Successes(ps[1..]));
    }
  }

  /** No failure on record, less than 8 per cent lost, answers within 400 ms and 80 ms of jitter. */
  predicate Unblemished(h: Health) {
    h.failures == 0 && h.loss < 8.0 && h.rtt < 400.0 && h.jitter < 80.0
  }

  lemma {:induction false} UpStaysClean(l: Link, ps: seq<Probe>)
    requires l.state == Up ==> Unblemished(l.health)
    ensures Run(l, ps).state == Up ==> Unblemished(Run(l, ps).health)
    decreases |ps|
  {
    if ps != [] { UpStaysClean(ProbeLink(l, ps[0]), ps[1..]); }
  }

  /** UP is only ever declared on a clean record. */
  lemma {:induction false} UpIsClean(l: Link, ps: seq<Probe>)
    requires l.state != Up && Run(l, ps).state == Up
    ensures Unblemished(Run(l, ps).health)
    decreases |ps|
  {
    if ps != [] {
      var l1 := ProbeLink(l, ps[0]);
      if l1.state == Up {
        UpStaysClean(l1, ps[1..]);
      } else {
        UpIsClean(l1, ps[1..]);
      }
    }
  }

  lemma FewAnswersKeepLoss(loss: real, k: nat, floor: real)
    requires loss >= floor >= 0.0 && Faded(loss, k) < 8.0
    ensures floor >= 30.0 ==> k >= 4
    ensures floor >= 51.0 ==> k >= 6
  {
    assert Decay(0) == 1.0 && Decay(1) == 0.7 && Decay(2) == 0.49 && Decay(3) == 0.343;
    assert Decay(4) == 0.2401 && Decay(5) == 0.16807;
  }

  /** What every monitored link satisfies: losses are percentages, and a failure on record has raised the average. */
  ghost predicate Sound(l: Link) {
    && 0.0 <= l.health.loss <= 100.0
    && (l.health.failures > 0 ==> l.health.loss >= 30.0 && l.health.successes == 0)
    && (l.health.failures >= 2 ==> l.health.loss >= 51.0)
  }

  lemma {:induction false} RunSound(l: Link, ps: seq<Probe>)
    requires Sound(l) && forall i :: 0 <= i < |ps| ==> Plausible(ps[i])
    ensures Sound(Run(l, ps))
    decreases |ps|
  {
    if ps != [] {
      assert Plausible(ps[0]);
      RunSound(ProbeLink(l, ps[0]), ps[1..]);
    }
  }

  lemma {:induction false} RunAppend(l: Link, ps: seq<Probe>, qs: seq<Probe>)
    ensures Run(l, ps + qs) == Run(Run(l, ps), qs)
    decreases |ps|
  {
    if ps == [] {
      assert ps + qs == qs;
    } else {
      assert (ps + qs)[0] == ps[0] && (ps + qs)[1..] == ps[1..] + qs;
      RunAppend(ProbeLink(l, ps[0]), ps[1..], qs);
    }
  }

  const NEW_LINK := Link(true, Unknown, Health(0.0, 0.0, 0.0, 0, 0))

  lemma {:induction false} RunOne(l: Link, p: Probe)
    ensures Run(l, [p]) == ProbeLink(l, p)
  {
    assert [p][1..] == [];
    assert Run(ProbeLink(l, p), []) == ProbeLink(l, p);
  }

  lemma FailureSound(l: Link)
    requires Sound(l)
    ensures var failed := ProbeLink(l, Silence);
            failed.state != Up && Sound(failed) && failed.health.loss >= (if failed.state == Down then 51.0 else 30.0)
  {
  }

  /**
   Slow return.  After any failed probe the link is not UP, and however good the answers look it takes at least
   four of them before the monitor declares it UP again, six if that failure left it DOWN.
   */
  lemma {:induction false} SlowReturn(l: Link, ps: seq<Probe>)
    requires Sound(l) && Answers(ps)
    ensures var failed := ProbeLink(l, Silence);
            && failed.state != Up
            && (Run(failed, ps).state == Up ==> Successes(ps) >= (if failed.state == Down then 6 else 4))
  {
    FailureSound(l);
    hide Evaluate, Faded;
    var failed := ProbeLink(l, Silence);
    if Run(failed, ps).state == Up {
      UpIsClean(failed, ps);
      LossDecays(failed, ps);
      FewAnswersKeepLoss(failed.health.loss, Successes(ps), if failed.state == Down then 51.0 else 30.0);
    }
  }

  /** Slow return over every history of a new link: `before`, then a failure, then only answers. */
  lemma {:induction false} SlowReturnAlways(before: seq<Probe>, after: seq<Probe>)
    requires forall i :: 0 <= i < |before| ==> Plausible(before[i])
    requires Answers(after)
    ensures var failed := Run(NEW_LINK, before + [Silence]);
            var later := Run(NEW_LINK, before + [Silence] + after);
            && failed.state != Up
            && (later.state == Up ==> Successes(after) >= (if failed.state == Down then 6 else 4))
  {
    RunSound(NEW_LINK, before);
    RunAppend(NEW_LINK, before, [Silence]);
    RunAppend(NEW_LINK, before + [Silence], after);
    hide Run, ProbeLink, Answers, Sound, Successes;
    RunOne(Run(NEW_LINK, before), Silence);
    SlowReturn(Run(NEW_LINK, before), after);
  }

  /** Fast exit: two failures in a row put any link DOWN, whatever came before. */
  lemma FastExit(l: Link)
    ensures ProbeLink(ProbeLink(l, Silence), Silence).state == Down
  {
  }

  /** Only a failed probe leaves a link DOWN. */
  lemma {:induction false} DownMeansSilence(ps: seq<Probe>)
    requires ps != [] && Run(NEW_LINK, ps).state == Down
    ensures ps[|ps| - 1] == Silence
  {
    var init, last := ps[..|ps| - 1], ps[|ps| - 1];
    RunAppend(NEW_LINK, init, [last]);
    assert init + [last] == ps;
    hide Run;
    RunOne(Run(NEW_LINK, init), last);
  }

  function Probed(ps: seq<Probe>): nat {
    if ps == [] then 0 else (if ps[0].Off? then 0 else 1) + Probed(ps[1..])
  }

  /** Failures only raise the average, so no probe at all pulls it down faster than an answer. */
  lemma {:induction false} LossFades(l: Link, ps: seq<Probe>)
    requires 0.0 <= l.health.loss <= 100.0 && forall i :: 0 <= i < |ps| ==> Plausible(ps[i])
    ensures Run(l, ps).health.loss >= Faded(l.health.loss, Probed(ps))
    decreases |ps|
  {
    if ps != [] {
      var l1 := ProbeLink(l, ps[0]);
      assert Plausible(ps[0]);
      assert 0.0 <= l1.health.loss <= 100.0;
      assert l1.health.loss >= (if ps[0].Off? then l.health.loss else 0.7 * l.health.loss);
      hide ProbeLink, Faded;
      LossFades(l1, ps[1..]);
      DecayStep(l.health.loss, l1.health.loss, Probed(ps[1..]));
    }
  }

  /** An outage is never shorter than six enabled probes: the loss average cannot fall below the threshold sooner. */
  lemma {:induction false} OutagesLast(before: seq<Probe>, after: seq<Probe>)
    requires forall i :: 0 <= i < |before| ==> Plausible(before[i])
    requires forall i :: 0 <= i < |after| ==> Plausible(after[i])
    requires Run(NEW_LINK, before).state == Down
    requires Run(NEW_LINK, before + after).state == Up
    ensures Probed(after) >= 6
  {
    assert before != [] by { assert NEW_LINK.state != Down; }
    DownMeansSilence(before);
    var init := before[..|before| - 1];
    RunSound(NEW_LINK, init);
    RunAppend(NEW_LINK, init, [Silence]);
    RunAppend(NEW_LINK, before, after);
    assert init + [Silence] == before;
    RunOne(Run(NEW_LINK, init), Silence);
    hide Run, ProbeLink, Faded, Probed, Plausible;
    FailureSound(Run(NEW_LINK, init));
    UpIsClean(Run(NEW_LINK, before), after);
    LossFades(Run(NEW_LINK, before), after);
    FewAnswersKeepLoss(Run(NEW_LINK, before).health.loss, Probed(after), 51.0);
  }

  const CLEAN := Reply(20.0, 1.0, 0.0)

  lemma {:induction false} RunTwo(l: Link, p: Probe, q: Probe)
    ensures Run(l, [p, q]) == ProbeLink(ProbeLink(l, p), q)
  {
    RunOne(ProbeLink(l, p), q);
    assert [p, q][1..] == [q];
  }

  lemma {:induction false} RunFour(l: Link)
    ensures Run(l, [CLEAN, CLEAN, CLEAN, CLEAN])
         == ProbeLink(ProbeLink(ProbeLink(ProbeLink(l, CLEAN), CLEAN), CLEAN), CLEAN)
  {
    RunTwo(l, CLEAN, CLEAN);
    RunTwo(ProbeLink(ProbeLink(l, CLEAN), CLEAN), CLEAN, CLEAN);
    RunAppend(l, [CLEAN, CLEAN], [CLEAN, CLEAN]);
    assert [CLEAN, CLEAN] + [CLEAN, CLEAN] == [CLEAN, CLEAN, CLEAN, CLEAN];
  }

  /** The bounds four and six are reached: perfect answers after one failure, and after two. */
  lemma ReturnIsThatFast()
    ensures Run(NEW_LINK, [CLEAN, Silence, CLEAN, CLEAN, CLEAN, CLEAN]).state == Up
    ensures Run(NEW_LINK, [Silence, Silence, CLEAN, CLEAN, CLEAN, CLEAN, CLEAN, CLEAN]).state == Up
  {
    var a := [CLEAN, CLEAN, CLEAN, CLEAN];
    RunFour(ProbeLink(ProbeLink(NEW_LINK, CLEAN), Silence));
    assert [CLEAN, Silence, CLEAN, CLEAN, CLEAN, CLEAN] == [CLEAN, Silence] + a;
    RunTwo(NEW_LINK, CLEAN, Silence);
    RunAppend(NEW_LINK, [CLEAN, Silence], a);
    var down := ProbeLink(ProbeLink(NEW_LINK, Silence), Silence);
    RunTwo(NEW_LINK, Silence, Silence);
    RunTwo(down, CLEAN, CLEAN);
    RunAppend(NEW_LINK, [Silence, Silence], [CLEAN, CLEAN]);
    RunFour(ProbeLink(ProbeLink(down, CLEAN), CLEAN));
    RunAppend(NEW_LINK, [Silence, Silence] + [CLEAN, CLEAN], a);
    assert [Silence, Silence, CLEAN, CLEAN, CLEAN, CLEAN, CLEAN, CLEAN] == [Silence, Silence] + [CLEAN, CLEAN] + a;
  }

  // ----- when the recovery threshold is honoured

  predicate Failed(ps: seq<Probe>) {
    exists i :: 0 <= i < |ps| && ps[i] == Silence
  }

  /** A failure stays visible in the loss average: only answers wear it down, each by a factor of 0.7 at most. */
  ghost predicate Scarred(h: Health) {
    h.loss >= Faded(30.0, h.successes)
  }

  lemma ScarsStay(l: Link, p: Probe)
    requires 0.0 <= l.health.loss <= 100.0 && Plausible(p)
    ensures 0.0 <= ProbeLink(l, p).health.loss <= 100.0
    ensures p == Silence || Scarred(l.health) ==> Scarred(ProbeLink(l, p).health)
  {
    assert Decay(0) == 1.0;
    DecayStep(Faded(30.0, l.health.successes), l.health.loss, 0);
  }

  lemma {:induction false} FailureScars(l: Link, ps: seq<Probe>)
    requires 0.0 <= l.health.loss <= 100.0 && forall i :: 0 <= i < |ps| ==> Plausible(ps[i])
    ensures Scarred(l.health) || Failed(ps) ==> Scarred(Run(l, ps).health)
    decreases |ps|
  {
    if ps != [] {
      assert Plausible(ps[0]);
      ScarsStay(l, ps[0]);
      assert forall i :: 0 < i < |ps| ==> ps[i] == ps[1..][i - 1];
      hide ProbeLink, Scarred;
      FailureScars(ProbeLink(l, ps[0]), ps[1..]);
    }
  }

  /**
   Exactly when the recovery threshold is not honoured.  An answer declares the link UP with fewer than three
   successes on record if and only if no probe has ever failed, at most one answer came before, the link is neither
   UNKNOWN nor DOWN, and the record is clean.  So the guard protects a link that has never failed from its first
   answer only, and not even then after an operator's disable; after a failure the loss average does it alone.
   */
  lemma {:induction false} ThresholdSkippedExactly(ps: seq<Probe>, p: Probe)
    requires p.Reply? && Plausible(p) && forall i :: 0 <= i < |ps| ==> Plausible(ps[i])
    ensures var l := Run(NEW_LINK, ps);
            var l' := ProbeLink(l, p);
            l'.state == Up && l'.health.successes < 3 <==>
              && !Failed(ps) && l.health.successes < 2
              && l.state != Unknown && l.state != Down && Unblemished(l'.health)
  {
    FailureScars(NEW_LINK, ps);
    RunSound(NEW_LINK, ps);
    hide Run, Failed;
    var l := Run(NEW_LINK, ps);
    ScarsStay(l, p);
    assert Decay(1) == 0.7 && Decay(2) == 0.7 * Decay(1) == 0.49;
  }

  /** The second way around the threshold: a link disabled and enabled again is UP from its very first answer. */
  lemma EnabledIsTrusted()
    ensures var l := Run(NEW_LINK, [Off, CLEAN]); l.state == Up && l.health.successes == 1
  {
    RunTwo(NEW_LINK, Off, CLEAN);
  }

  /** An answer good enough that, on a clean average, it degrades nothing. */
  predicate Fine(p: Probe) {
    p.Reply? && 0.0 < p.rtt < 400.0 && 0.0 < p.jitter < 80.0 && 0.0 <= p.loss < 8.0
  }

  ghost predicate Healthy(h: Health) {
    h.failures == 0 && 0.0 <= h.rtt < 400.0 && 0.0 <= h.jitter < 80.0 && 0.0 <= h.loss < 8.0
  }

  /**
   The recovery threshold asks for three successes but only looks at DOWN and UNKNOWN links, and one success
   already makes the link DEGRADED.  So a new link on fine answers is UP exactly from its second one on.
   */
  lemma {:induction false} SecondAnswerSuffices(ps: seq<Probe>)
    requires forall i :: 0 <= i < |ps| ==> Fine(ps[i])
    ensures Healthy(Run(NEW_LINK, ps).health)
    ensures Run(NEW_LINK, ps).state == (if |ps| == 0 then Unknown else if |ps| == 1 then Degraded else Up)
    ensures Run(NEW_LINK, ps).health.successes == |ps|
    decreases |ps|
  {
    if ps != [] {
      var init, last := ps[..|ps| - 1], ps[|ps| - 1];
      SecondAnswerSuffices(init);
      RunAppend(NEW_LINK, init, [last]);
      assert init + [last] == ps;
      var l := Run(NEW_LINK, init);
      assert Run(l, [last]) == Run(ProbeLink(l, last), []) == ProbeLink(l, last);
    }
  }

  // ----- what one probe decides

  /**
   The state after each probe.  An answer leaves the link UP when its record is clean, unless it was DOWN or UNKNOWN
   with fewer than three successes, and DEGRADED otherwise; a failure leaves it DOWN when it is the second in a row,
   and DEGRADED when it is the first; a disabled link is DISABLED and its record stays.
   */
  lemma EveryProbeDecides(l: Link, p: Probe)
    ensures var l' := ProbeLink(l, p);
            match p
            case Off => l'.state == Disabled && !l'.enabled && l'.health == l.health
            case Silence =>
              && l'.enabled && l'.state == (if l.health.failures >= 1 then Down else Degraded)
              && l'.health.failures == l.health.failures + 1 && l'.health.successes == 0
            case Reply(_, _, _) =>
              && l'.enabled && l'.health.failures == 0 && l'.health.successes == l.health.successes + 1
              && l'.state == (if Unblemished(l'.health)
                                 && (!(l.state == Down || l.state == Unknown) || l'.health.successes >= 3) then Up
                              else Degraded)
  {
  }

  /**
   An answer moves each average three tenths of the way to the sample; the first delay and jitter are taken as they
   are.
   */
  lemma AnswersSmooth(l: Link, p: Probe)
    requires p.Reply?
    ensures var h, h' := l.health, ProbeLink(l, p).health;
            && h'.loss - p.loss == 0.7 * (h.loss - p.loss)
            && (if h.rtt == 0.0 then h'.rtt == p.rtt else h'.rtt - p.rtt == 0.7 * (h.rtt - p.rtt))
            && (if h.jitter == 0.0 then h'.jitter == p.jitter else h'.jitter - p.jitter == 0.7 * (h.jitter - p.jitter))
  {
  }

  /** A failure moves the loss three tenths of the way to everything lost, and leaves delay and jitter alone. */
  lemma FailureSmooths(l: Link)
    ensures ProbeLink(l, Silence).health.loss <= 100.0
    ensures 0.0 <= l.health.loss <= 100.0 ==>
            var h, h' := l.health, ProbeLink(l, Silence).health;
            100.0 - h'.loss == 0.7 * (100.0 - h.loss) && h'.rtt == h.rtt && h'.jitter == h.jitter
  {
  }

  /** A new link is enabled and unmeasured: its first answer is taken as it is, but for the loss. */
  lemma FirstAnswer(p: Probe)
    requires p.Reply?
    ensures NEW_LINK.enabled && NEW_LINK.state == Unknown
    ensures Run(NEW_LINK, [p]).health == Health(p.rtt, p.jitter, 0.3 * p.loss, 0, 1)
  {
    RunOne(NEW_LINK, p);
  }

  function Same(p: Probe, k: nat): seq<Probe> {
    if k == 0 then [] else Same(p, k - 1) + [p]
  }

  lemma FadedMore(x: real, k: nat)
    ensures Faded(x, k + 1) == 0.7 * Faded(x, k)
  {
    assert x * (0.7 * Decay(k)) == 0.7 * (x * Decay(k));
  }

  lemma StaysPositive(l: Link, p: Probe)
    requires p.Reply? && p.rtt > 0.0 && p.jitter > 0.0 && l.health.rtt > 0.0 && l.health.jitter > 0.0
    ensures ProbeLink(l, p).health.rtt > 0.0 && ProbeLink(l, p).health.jitter > 0.0
  {
  }

  /** The averages converge: k equal answers leave 0.7 to the k of the distance that was there. */
  lemma {:induction false} AveragesConverge(l: Link, p: Probe, k: nat)
    requires p.Reply? && p.rtt > 0.0 && p.jitter > 0.0 && l.health.rtt > 0.0 && l.health.jitter > 0.0
    ensures var h, h' := l.health, Run(l, Same(p, k)).health;
            && h'.rtt > 0.0 && h'.jitter > 0.0
            && h'.rtt - p.rtt == Faded(h.rtt - p.rtt, k)
            && h'.jitter - p.jitter == Faded(h.jitter - p.jitter, k)
            && h'.loss - p.loss == Faded(h.loss - p.loss, k)
  {
    if k == 0 {
      assert Decay(0) == 1.0;
    } else {
      AveragesConverge(l, p, k - 1);
      RunAppend(l, Same(p, k - 1), [p]);
      var l1 := Run(l, Same(p, k - 1));
      RunOne(l1, p);
      AnswersSmooth(l1, p);
      FadedMore(l.health.rtt - p.rtt, k - 1);
      FadedMore(l.health.jitter - p.jitter, k - 1);
      FadedMore(l.health.loss - p.loss, k - 1);
      hide Run, Faded, Decay, Same;
      StaysPositive(l1, p);
    }
  }
}
