/**
What the gate of Customer Device Mode must answer, told from the events alone:
which switch came last, which grant is the latest, what has ended it since. The
theorems say that the manager answers exactly so as long as its state file keeps
up: either every write succeeds, or there is no restart.
*/
module CdmHistory {
  import opened Wrappers
  import opened Cdm

  /** CDM was switched on successfully, and not off since. */
  ghost predicate SwitchedOn(es: seq<Event>, n: nat)
    requires n <= |es|
  {
    exists m: nat :: m < n && es[m] == Enable(Written) && NoDisable(es, m, n)
  }

  ghost predicate NoDisable(es: seq<Event>, m: nat, n: nat)
    requires n <= |es|
  {
    forall k :: m < k < n ==> !es[k].Disable?
  }

  /** The grant at i is the latest before n that found CDM on, and neither revoked nor disabled since. */
  ghost predicate GrantedAt(es: seq<Event>, i: nat, n: nat)
    requires n <= |es|
  {
    && i < n && es[i].Grant? && SwitchedOn(es, i)
    && forall k :: i < k < n ==> !es[k].Disable? && !es[k].Revoke? && !es[k].Grant?
  }

  ghost predicate Reliable(es: seq<Event>, n: nat)
    requires n <= |es|
  {
    (forall m :: 0 <= m < n ==> Persists(es[m])) || (forall m :: 0 <= m < n ==> !es[m].Restart?)
  }

  /** Some event after the grant at i read a clock beyond its window. */
  ghost predicate WindowPassed(es: seq<Event>, i: nat, n: nat)
    requires n <= |es| && i < n && es[i].Grant?
  {
    exists k :: i < k < n && Clock(es[k]).Some? && Clock(es[k]).value > es[i].now + es[i].duration
  }

  /** The state in memory is what the events say. */
  ghost predicate FollowsEvents(s: State, es: seq<Event>, n: nat)
    requires n <= |es|
  {
    && (s.enabled <==> SwitchedOn(es, n))
    && (s.active ==> exists i: nat :: GrantedAt(es, i, n) && SessionOf(s, es[i]) && s.grantedBy == es[i].actor)
    && (forall i: nat :: GrantedAt(es, i, n) && !s.active ==> WindowPassed(es, i, n))
  }

  /** The file holds what the memory holds, or is not there yet. */
  predicate FileKept(a: Agent) {
    a.up && (a.disk == Stored(a.mem) || (a.disk == Missing && a.mem == INITIAL))
  }

  lemma SwitchStep(es: seq<Event>, n: nat)
    requires 0 < n <= |es|
    ensures SwitchedOn(es, n) <==>
            es[n - 1] == Enable(Written) || (SwitchedOn(es, n - 1) && !es[n - 1].Disable?)
  {
    if m: nat :| m < n - 1 && es[m] == Enable(Written) && NoDisable(es, m, n - 1) {
      assert !es[n - 1].Disable? ==> NoDisable(es, m, n);
    }
    if m: nat :| m < n && es[m] == Enable(Written) && NoDisable(es, m, n) {
      if m < n - 1 {
        assert NoDisable(es, m, n - 1);
      }
    }
    if es[n - 1] == Enable(Written) {
      assert NoDisable(es, n - 1, n);
    }
  }

  lemma GrantStep(es: seq<Event>, i: nat, n: nat)
    requires 0 < n <= |es|
    ensures GrantedAt(es, i, n) <==>
            if i == n - 1 then es[i].Grant? && SwitchedOn(es, i)
            else GrantedAt(es, i, n - 1) && !es[n - 1].Disable? && !es[n - 1].Revoke? && !es[n - 1].Grant?
  {
  }

  /** A grant that is not disabled since leaves CDM on. */
  lemma {:induction false} GrantedMeansOn(es: seq<Event>, i: nat, n: nat)
    requires n <= |es| && GrantedAt(es, i, n)
    ensures SwitchedOn(es, n)
  {
    SwitchStep(es, n);
    if i < n - 1 {
      GrantedMeansOn(es, i, n - 1);
    }
  }

  lemma {:induction false} FileFollows(ss: seq<Agent>, es: seq<Event>, n: nat)
    requires IsRun(ss, es) && n <= |es| && forall m :: 0 <= m < n ==> Persists(es[m])
    ensures FileKept(ss[n])
  {
    if n > 0 {
      FileFollows(ss, es, n - 1);
    }
  }

  /** If its file kept up, an agent's memory moves by the event alone; a restart only lets a session expire. */
  lemma MemoryMoves(a: Agent, e: Event)
    requires CanHappen(a, e) && (e.Restart? ==> FileKept(a))
    ensures var s, s' := a.mem, Next(a, e).mem;
            match e
            case Enable(w) => s' == if w.Written? then s.(enabled := true) else s
            case Disable(_) => s' == State(false, false, None, "", None)
            case Grant(actor, duration, now, _) =>
              s' == if s.enabled then State(true, true, Some(now + duration), actor, Some(now)) else s
            case Revoke(_) => s' == if s.active then State(s.enabled, false, None, "", None) else s
            case Start(_) => s' == s
            case Elsewhere => s' == s
            case _ => s' == if s.active && s.expiresAt.Some? && s.expiresAt.value < Clock(e).value
                            then State(s.enabled, false, None, "", None) else s
  {
  }

  lemma SessionStep(ss: seq<Agent>, es: seq<Event>, n: nat)
    requires IsRun(ss, es) && 0 < n <= |es| && AgentOk(ss[n - 1])
    requires es[n - 1].Restart? ==> FileKept(ss[n - 1])
    requires FollowsEvents(ss[n - 1].mem, es, n - 1)
    ensures FollowsEvents(ss[n].mem, es, n)
  {
    var a, e, s, s' := ss[n - 1], es[n - 1], ss[n - 1].mem, ss[n].mem;
    MemoryMoves(a, e);
    hide Next, CanHappen;
    SwitchStep(es, n);
    hide SwitchedOn;
    if s'.active {
      var i: nat := n - 1;
      if !(e.Grant? && s.enabled) {
        i :| GrantedAt(es, i, n - 1) && SessionOf(s, es[i]) && s.grantedBy == es[i].actor;
      }
      if i < n - 1 {
        GrantedMeansOn(es, i, n - 1);
      }
      GrantStep(es, i, n);
      assert GrantedAt(es, i, n) && SessionOf(s', es[i]) && s'.grantedBy == es[i].actor;
    }
    forall i: nat | GrantedAt(es, i, n) && !s'.active ensures WindowPassed(es, i, n) {
      GrantStep(es, i, n);
      if s.active {
        var j: nat :| GrantedAt(es, j, n - 1) && SessionOf(s, es[j]) && s.grantedBy == es[j].actor;
        assert i == j;
        assert Clock(e).Some? && Clock(e).value > es[i].now + es[i].duration;
      } else {
        assert WindowPassed(es, i, n - 1);
      }
    }
  }

  /** The memory follows the events alone. */
  lemma {:induction false} MemoryFromEvents(ss: seq<Agent>, es: seq<Event>, n: nat)
    requires IsRun(ss, es) && n <= |es| && Reliable(es, n)
    ensures FollowsEvents(ss[n].mem, es, n)
  {
    if n > 0 {
      MemoryFromEvents(ss, es, n - 1);
      SessionAlwaysOk(ss, es, n - 1);
      if es[n - 1].Restart? {
        FileFollows(ss, es, n - 1);
      }
      SessionStep(ss, es, n);
    }
  }

  /**
  The gate, from the events alone: it opens exactly if CDM is not switched on, or
  the latest grant is neither revoked nor disabled and its window has not passed.
  */
  lemma GateExactly(ss: seq<Agent>, es: seq<Event>, g: nat)
    requires IsRun(ss, es) && ClockInOrder(es) && g < |es| && es[g].Gate? && Reliable(es, g)
    ensures ss[g].mem.enabled <==> SwitchedOn(es, g)
    ensures CanExecute(ss[g].mem, es[g].now) <==>
            || !SwitchedOn(es, g)
            || exists i: nat :: GrantedAt(es, i, g) && es[g].now <= es[i].now + es[i].duration
  {
    MemoryFromEvents(ss, es, g);
    SessionAlwaysOk(ss, es, g);
    assert Clock(es[g]) == Some(es[g].now);
    hide IsRun, Reliable, SwitchedOn;
    var s := ss[g].mem;
    if i: nat :| GrantedAt(es, i, g) && es[g].now <= es[i].now + es[i].duration {
      if !s.active {
        assert WindowPassed(es, i, g);
      } else {
        var j: nat :| GrantedAt(es, j, g) && SessionOf(s, es[j]) && s.grantedBy == es[j].actor;
        assert i == j;
      }
    }
    if s.active && !Expired(s, es[g].now) {
      var j: nat :| GrantedAt(es, j, g) && SessionOf(s, es[j]) && s.grantedBy == es[j].actor;
      assert es[g].now <= es[j].now + es[j].duration;
    }
  }

  /** The last switch decides, whatever became of its write, as long as the agent does not restart. */
  lemma {:induction false} LastSwitchDecides(ss: seq<Agent>, es: seq<Event>, m: nat, n: nat)
    requires IsRun(ss, es) && m < n <= |es| && (es[m] == Enable(Written) || es[m].Disable?)
    requires forall k :: m < k < n ==> !es[k].Restart? && !es[k].Disable? && es[k] != Enable(Written)
    ensures ss[n].mem.enabled <==> es[m].Enable?
  {
    MemoryMoves(ss[n - 1], es[n - 1]);
    hide Next;
    if m < n - 1 {
      LastSwitchDecides(ss, es, m, n - 1);
    }
  }

  /** Between a disable and the next enable every gate is open. */
  lemma OpenWhileDisabled(ss: seq<Agent>, es: seq<Event>, m: nat, g: nat)
    requires IsRun(ss, es) && m < g < |es| && es[m].Disable? && es[g].Gate?
    requires forall k :: m < k < g ==> !es[k].Restart? && es[k] != Enable(Written) && !es[k].Disable?
    ensures CanExecute(ss[g].mem, es[g].now) && es[g].job in ss[g + 1].cleared
  {
    LastSwitchDecides(ss, es, m, g);
  }
}
