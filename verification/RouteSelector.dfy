/** The mutable route selector of turbobond/transport/selector.py; probes and the switch callback are inputs. */
module RouteSelection {
  import opened Selector

  lemma ValidShape(s: State)
    requires Valid(s)
    ensures Complete(s) && s.statuses.Keys == {Direct, Shadow}
  {
  }

  class RouteSelector {
    const auto: bool
    const failoverAfter: int
    const hook: bool
    var active: Route
    var preferred: Route
    var switches: nat
    var statuses: map<Route, Status>

    function View(): State
      reads this
    {
      State(auto, failoverAfter, hook, active, preferred, switches, statuses)
    }

    constructor (auto: bool, failoverAfter: int, hook: bool, route: Route)
      ensures View() == NewState(auto, failoverAfter, hook, route) && Valid(View())
    {
      this.auto, this.failoverAfter, this.hook := auto, failoverAfter, hook;
      active, preferred, switches := route, route, 0;
      statuses := map[Direct := Flagged(NEW_STATUS, route == Direct), Shadow := Flagged(NEW_STATUS, route == Shadow)];
    }

    /** `check_route` with the caller's exception handling; each early return is one branch. */
    method CheckRoute(r: Route, c: Check)
      requires Complete(View())
      modifies `statuses
      ensures Complete(View()) && statuses == old(statuses)[r := Selector.CheckRoute(hook, old(Of(View(), r)), c)]
    {
      var st := Of(View(), r);
      if hook {
        if c.availability.HookRaised? {
          statuses := statuses[r := st.(healthy := false)];
          return;
        }
        st := st.(available := c.availability.up);
        if !st.available {
          statuses := statuses[r := st.(healthy := false, successes := 0, failures := st.failures + 1)];
          return;
        }
      } else {
        st := st.(available := true);
      }
      match c.reply
      case ProbeRaised =>
        statuses := statuses[r := st.(healthy := false)];
      case Measured(reachable, loss) =>
        if reachable && loss < 50.0 {
          st := st.(healthy := true, failures := 0, successes := st.successes + 1);
        } else {
          st := st.(healthy := false, successes := 0, failures := st.failures + 1);
        }
        statuses := statuses[r := st];
    }

    method CheckAll(direct: Check, shadow: Check)
      requires Complete(View()) && statuses.Keys == {Direct, Shadow}
      modifies `statuses
      ensures View() == Selector.CheckAll(old(View()), direct, shadow)
    {
      this.CheckRoute(Direct, direct);
      this.CheckRoute(Shadow, shadow);
    }

    method SwitchTo(r: Route, works: bool) returns (ok: bool)
      requires Complete(View()) && statuses.Keys == {Direct, Shadow}
      modifies this
      ensures var (s, done) := Selector.SwitchTo(old(View()), r, works); View() == s && ok == done
    {
      if active == r {
        return true;
      }
      if !Of(View(), r).available && hook {
        return false;
      }
      if !works {
        return false;
      }
      active := r;
      switches := switches + 1;
      statuses := map q | q in statuses :: statuses[q].(active := q == r);
      return true;
    }

    method SetPreferred(r: Route, works: bool) returns (ok: bool)
      requires Complete(View()) && statuses.Keys == {Direct, Shadow}
      modifies this
      ensures var (s, done) := Selector.SetPreferred(old(View()), r, works); View() == s && ok == done
    {
      preferred := r;
      ok := this.SwitchTo(r, works);
    }

    method Evaluate(e: Round)
      requires Valid(View())
      modifies this
      ensures View() == Selector.Evaluate(old(View()), e) && Valid(View())
    {
      ApplyValid(View(), Tick(e));
      CheckAllValid(View(), e.direct, e.shadow);
      hide Valid, Selector.CheckAll, Selector.SwitchTo;
      ValidShape(View());
      this.CheckAll(e.direct, e.shadow);
      ValidShape(View());
      if !auto {
        return;
      }
      if Of(View(), active).failures >= failoverAfter {
        var alternate := Other(active);
        if Of(View(), alternate).available && Of(View(), alternate).healthy {
          var _ := this.SwitchTo(alternate, e.works);
        }
        return;
      }
      if active != preferred {
        var st := Of(View(), preferred);
        if st.available && st.healthy && st.successes >= RECOVERY_THRESHOLD {
          var _ := this.SwitchTo(preferred, e.works);
        }
      }
    }
  }
}
