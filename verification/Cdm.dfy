/**
Customer Device Mode: the persisted session state of agent/cdm/cdm.go and the
gate it puts in front of every job. Writes of the state file may fail, leaving
the file as it was or torn; the agent may restart at any time.
*/
module Cdm {
  import opened Wrappers

  datatype State = State(enabled: bool, active: bool, expiresAt: Option<int>, grantedBy: string, grantedAt: Option<int>)

  datatype Disk = Missing | Stored(state: State) | Torn

  /** How an attempt to write the state file ends. */
  datatype Write = Written | Untouched | Broken

  const INITIAL := State(false, false, None, "", None)

  function Persist(disk: Disk, s: State, w: Write): Disk {
    match w
    case Written => Stored(s)
    case Untouched => disk
    case Broken => Torn
  }

  function EndSession(s: State): State {
    s.(active := false, expiresAt := None, grantedBy := "", grantedAt := None)
  }

  predicate Expired(s: State, now: int) {
    s.active && s.expiresAt.Some? && s.expiresAt.value < now
  }

  predicate CanExecute(s: State, now: int) {
    !s.enabled || (s.active && !Expired(s, now))
  }

  // ----- steps -----

  type JobRun = nat

  /** `Elsewhere` stands for steps of the surrounding system that do not concern this agent's CDM state. */
  datatype Event =
    | Enable(w: Write)
    | Disable(w: Write)
    | Grant(actor: string, duration: int, now: int, w: Write)
    | Revoke(w: Write)
    | Poll(now: int, w: Write)
    | Gate(job: JobRun, now: int, w: Write)
    | Start(job: JobRun)
    | Restart(now: int, w: Write)
    | Elsewhere

  /** `up` is false when the state file could not be read; `cleared` are job runs past the gate. */
  datatype Agent = Agent(mem: State, disk: Disk, up: bool, cleared: set<JobRun>)

  predicate CanHappen(a: Agent, e: Event) {
    match e
    case Restart(_, _) => true
    case Elsewhere => true
    case Start(job) => a.up && job in a.cleared
    case _ => a.up
  }

  function Expire(a: Agent, now: int, w: Write): Agent {
    if Expired(a.mem, now) then a.(mem := EndSession(a.mem), disk := Persist(a.disk, EndSession(a.mem), w)) else a
  }

  function Next(a: Agent, e: Event): Agent {
    match e
    case Enable(w) =>
      a.(mem := if w.Written? then a.mem.(enabled := true) else a.mem,
         disk := Persist(a.disk, a.mem.(enabled := true), w))
    case Disable(w) => a.(mem := INITIAL, disk := Persist(a.disk, INITIAL, w))
    case Grant(actor, duration, now, w) =>
      if !a.mem.enabled then a
      else
        var s := State(true, true, Some(now + duration), actor, Some(now));
        a.(mem := s, disk := Persist(a.disk, s, w))
    case Revoke(w) =>
      if !a.mem.active then a
      else a.(mem := EndSession(a.mem), disk := Persist(a.disk, EndSession(a.mem), w))
    case Poll(now, w) => Expire(a, now, w)
    case Gate(job, now, w) =>
      Expire(a, now, w).(cleared := if CanExecute(a.mem, now) then a.cleared + {job} else a.cleared)
    case Start(job) => a.(cleared := a.cleared - {job})
    case Restart(now, w) =>
      if a.disk.Torn? then a.(up := false, cleared := {})
      else Expire(Agent(if a.disk.Stored? then a.disk.state else INITIAL, a.disk, true, {}), now, w)
    case Elsewhere => a
  }

  // ----- the manager -----

  datatype Outcome = Done | NotEnabled | NoSession | WriteError

  class Manager {
    var state: State
    var disk: Disk

    function View(): Agent
      reads this
    {
      Agent(state, disk, true, {})
    }

    constructor (disk: Disk, now: int, w: Write)
      requires !disk.Torn?
      ensures var s := if disk.Stored? then disk.state else INITIAL;
              state == if s.active && s.expiresAt.Some? && s.expiresAt.value < now
                       then State(s.enabled, false, None, "", None) else s
      ensures View() == Next(Agent(INITIAL, disk, false, {}), Restart(now, w))
    {
      this.disk := disk;
      state := if disk.Stored? then disk.state else INITIAL;
      new;
      CheckExpiry(now, w);
    }

    method Enable(w: Write) returns (r: Outcome)
      modifies this
      ensures View() == Next(old(View()), Event.Enable(w))
      ensures state == if w.Written? then old(state).(enabled := true) else old(state)
      ensures w.Written? ==> disk == Stored(state)
      ensures r == if w.Written? then Done else WriteError
    {
      var before := state.enabled;
      state := state.(enabled := true);
      disk := Persist(disk, state, w);
      if !w.Written? {
        state := state.(enabled := before);
        return WriteError;
      }
      return Done;
    }

    /** A failed write leaves the memory disabled and the file as it was. */
    method Disable(w: Write) returns (r: Outcome)
      modifies this
      ensures View() == Next(old(View()), Event.Disable(w))
      ensures !state.enabled && !state.active && state.expiresAt == None && state.grantedAt == None
      ensures w.Written? ==> disk == Stored(state)
      ensures w.Untouched? ==> disk == old(disk)
      ensures r == if w.Written? then Done else WriteError
    {
      state := state.(enabled := false, active := false, expiresAt := None, grantedBy := "", grantedAt := None);
      disk := Persist(disk, state, w);
      return if w.Written? then Done else WriteError;
    }

    /** A failed write still leaves the session granted in memory. */
    method GrantSession(actor: string, duration: int, now: int, w: Write) returns (r: Outcome)
      modifies this
      ensures View() == Next(old(View()), Grant(actor, duration, now, w))
      ensures r != NotEnabled ==> state == State(true, true, Some(now + duration), actor, Some(now))
      ensures r == NotEnabled ==> state == old(state) && disk == old(disk)
      ensures r == Done ==> disk == Stored(state)
      ensures r == NotEnabled <==> !old(state).enabled
      ensures r == Done <==> old(state).enabled && w.Written?
    {
      if !state.enabled {
        return NotEnabled;
      }
      state := state.(active := true, expiresAt := Some(now + duration), grantedBy := actor, grantedAt := Some(now));
      disk := Persist(disk, state, w);
      return if w.Written? then Done else WriteError;
    }

    method RevokeSession(w: Write) returns (r: Outcome)
      modifies this
      ensures View() == Next(old(View()), Revoke(w))
      ensures !state.active && state.enabled == old(state).enabled
      ensures r != NoSession ==> state == State(old(state).enabled, false, None, "", None)
      ensures r == Done ==> disk == Stored(state)
      ensures r == NoSession <==> !old(state).active
      ensures r == Done <==> old(state).active && w.Written?
    {
      if !state.active {
        return NoSession;
      }
      state := state.(active := false, expiresAt := None, grantedBy := "", grantedAt := None);
      disk := Persist(disk, state, w);
      return if w.Written? then Done else WriteError;
    }

    method CheckExpiry(now: int, w: Write)
      modifies this
      ensures View() == Next(old(View()), Poll(now, w))
      ensures var s := old(state);
              state == if s.active && s.expiresAt.Some? && s.expiresAt.value < now
                       then State(s.enabled, false, None, "", None) else s
    {
      if !state.active || state.expiresAt.None? {
        return;
      }
      if now > state.expiresAt.value {
        state := state.(active := false, expiresAt := None);
        state := state.(grantedBy := "", grantedAt := None);
        disk := Persist(disk, state, w);
      }
    }

    method CanExecuteJob(now: int, w: Write) returns (ok: bool)
      modifies this
      ensures View() == Next(old(View()), Gate(0, now, w)).(cleared := {})
      ensures ok <==> 0 in Next(old(View()), Gate(0, now, w)).cleared
      ensures var s := old(state);
              ok <==> !s.enabled || (s.active && (s.expiresAt.Some? ==> now <= s.expiresAt.value))
    {
      CheckExpiry(now, w);
      if !state.enabled {
        return true;
      }
      return state.active;
    }
  }

  /** Opening the manager at agent start: a torn state file is an error, and the agent does not come up. */
  method Open(disk: Disk, now: int, w: Write) returns (m: Manager?)
    ensures m == null <==> disk == Torn
    ensures m == null <==> !Next(Agent(INITIAL, disk, false, {}), Restart(now, w)).up
    ensures m != null ==> fresh(m) && m.View() == Next(Agent(INITIAL, disk, false, {}), Restart(now, w))
  {
    if disk.Torn? {
      return null;
    }
    m := new Manager(disk, now, w);
  }

  // ----- whole runs -----

  const FRESH := Agent(INITIAL, Missing, true, {})

  ghost predicate IsRun(ss: seq<Agent>, es: seq<Event>) {
    && |ss| == |es| + 1
    && ss[0] == FRESH
    && forall i :: 0 <= i < |es| ==> CanHappen(ss[i], es[i]) && ss[i + 1] == Next(ss[i], es[i])
  }

  function Clock(e: Event): Option<int> {
    match e
    case Grant(_, _, now, _) => Some(now)
    case Poll(now, _) => Some(now)
    case Gate(_, now, _) => Some(now)
    case Restart(now, _) => Some(now)
    case _ => None
  }

  ghost predicate ClockInOrder(es: seq<Event>) {
    forall i, k :: 0 <= i < k < |es| && Clock(es[i]).Some? && Clock(es[k]).Some? ==>
      Clock(es[i]).value <= Clock(es[k]).value
  }

  // ----- the state invariant -----

  predicate SessionOk(s: State) {
    && (s.active ==> s.enabled)
    && (s.active <==> s.expiresAt.Some?)
    && (s.active <==> s.grantedAt.Some?)
    && (!s.active ==> s.grantedBy == "")
  }

  predicate AgentOk(a: Agent) {
    SessionOk(a.mem) && (a.disk.Stored? ==> SessionOk(a.disk.state))
  }

  /** In memory and on disk, through failed writes and restarts, the session fields stay consistent. */
  lemma {:induction false} SessionAlwaysOk(ss: seq<Agent>, es: seq<Event>, n: nat)
    requires IsRun(ss, es) && n <= |es|
    ensures AgentOk(ss[n])
  {
    if n > 0 {
      SessionAlwaysOk(ss, es, n - 1);
    }
  }

  // ----- where a session comes from -----

  /** The event ends a session or switches CDM off. */
  predicate Ends(a: Agent, e: Event) {
    e.Disable? || (e.Revoke? && a.mem.active)
  }

  predicate SessionOf(s: State, e: Event) {
    e.Grant? && s.active && s.grantedAt == Some(e.now) && s.expiresAt == Some(e.now + e.duration)
  }

  /** The end at k did not stick: its write failed, and a restart before n brought the old file back. */
  ghost predicate Undone(es: seq<Event>, k: nat, n: nat)
    requires k < |es| && n <= |es| && (es[k].Disable? || es[k].Revoke?)
  {
    !es[k].w.Written? && exists r :: k < r < n && es[r].Restart?
  }

  /** The session in memory at n was granted at i and nothing that stuck has ended it since. */
  ghost predicate MemFrom(ss: seq<Agent>, es: seq<Event>, n: nat, i: nat)
    requires |ss| == |es| + 1 && n <= |es|
  {
    && i < n && ss[i].mem.enabled && SessionOf(ss[n].mem, es[i])
    && forall k :: i < k < n && Ends(ss[k], es[k]) ==> Undone(es, k, n)
  }

  /** The session on disk at n was granted at i; every later end failed to be written. */
  ghost predicate DiskFrom(ss: seq<Agent>, es: seq<Event>, n: nat, i: nat)
    requires |ss| == |es| + 1 && n <= |es|
  {
    && i < n && ss[i].mem.enabled && ss[n].disk.Stored? && SessionOf(ss[n].disk.state, es[i])
    && forall k :: i < k < n && Ends(ss[k], es[k]) ==> !es[k].w.Written?
  }

  ghost predicate MemTraced(ss: seq<Agent>, es: seq<Event>, n: nat)
    requires |ss| == |es| + 1 && n <= |es|
  {
    ss[n].mem.active ==> exists i: nat :: MemFrom(ss, es, n, i)
  }

  ghost predicate DiskTraced(ss: seq<Agent>, es: seq<Event>, n: nat)
    requires |ss| == |es| + 1 && n <= |es|
  {
    ss[n].disk.Stored? && ss[n].disk.state.active ==> exists i: nat :: DiskFrom(ss, es, n, i)
  }

  /** Every session, in memory or on disk, goes back to a grant that nothing which stuck has ended. */
  lemma {:induction false} Provenance(ss: seq<Agent>, es: seq<Event>, n: nat)
    requires IsRun(ss, es) && n <= |es|
    ensures MemTraced(ss, es, n) && DiskTraced(ss, es, n)
  {
    if n > 0 {
      Provenance(ss, es, n - 1);
      SessionAlwaysOk(ss, es, n - 1);
      MemStep(ss, es, n);
      DiskStep(ss, es, n);
    }
  }

  lemma MemStep(ss: seq<Agent>, es: seq<Event>, n: nat)
    requires IsRun(ss, es) && 0 < n <= |es| && AgentOk(ss[n - 1])
    requires MemTraced(ss, es, n - 1) && DiskTraced(ss, es, n - 1)
    ensures MemTraced(ss, es, n)
  {
    var a, e := ss[n - 1], es[n - 1];
    if !ss[n].mem.active {
    } else if e.Grant? && a.mem.enabled {
      assert MemFrom(ss, es, n, n - 1);
    } else if e.Restart? && a.disk.Stored? {
      var i: nat :| DiskFrom(ss, es, n - 1, i);
      assert MemFrom(ss, es, n, i);
    } else {
      var i: nat :| MemFrom(ss, es, n - 1, i);
      assert MemFrom(ss, es, n, i);
    }
  }

  lemma DiskStep(ss: seq<Agent>, es: seq<Event>, n: nat)
    requires IsRun(ss, es) && 0 < n <= |es| && AgentOk(ss[n - 1])
    requires MemTraced(ss, es, n - 1) && DiskTraced(ss, es, n - 1)
    ensures DiskTraced(ss, es, n)
  {
    var a, e := ss[n - 1], es[n - 1];
    if !(ss[n].disk.Stored? && ss[n].disk.state.active) {
    } else if e.Grant? && a.mem.enabled && e.w.Written? {
      assert DiskFrom(ss, es, n, n - 1);
    } else if e.Enable? && e.w.Written? {
      var i: nat :| MemFrom(ss, es, n - 1, i);
      assert DiskFrom(ss, es, n, i);
    } else {
      var i: nat :| DiskFrom(ss, es, n - 1, i);
      assert DiskFrom(ss, es, n, i);
    }
  }

  // ----- the gate -----

  /** At g, a session granted earlier is live: inside its window, and not ended by anything that stuck. */
  ghost predicate InSession(ss: seq<Agent>, es: seq<Event>, g: nat)
    requires |ss| == |es| + 1 && g < |es| && es[g].Gate?
  {
    exists i: nat :: MemFrom(ss, es, g, i) && es[i].now <= es[g].now <= es[i].now + es[i].duration
  }

  /** The gate opens under CDM exactly inside a live session. */
  lemma GateNeedsSession(ss: seq<Agent>, es: seq<Event>, g: nat)
    requires IsRun(ss, es) && ClockInOrder(es) && g < |es| && es[g].Gate? && ss[g].mem.enabled
    ensures CanExecute(ss[g].mem, es[g].now) <==> InSession(ss, es, g)
  {
    Provenance(ss, es, g);
    SessionAlwaysOk(ss, es, g);
    if ss[g].mem.active {
      var i: nat :| MemFrom(ss, es, g, i);
      assert Clock(es[i]).Some? && Clock(es[g]).Some?;
    }
  }

  lemma {:induction false} ClearedAtGate(ss: seq<Agent>, es: seq<Event>, n: nat, job: JobRun) returns (g: nat)
    requires IsRun(ss, es) && n <= |es| && job in ss[n].cleared
    ensures g < n && es[g].Gate? && es[g].job == job && CanExecute(ss[g].mem, es[g].now)
  {
    if es[n - 1].Gate? && es[n - 1].job == job && CanExecute(ss[n - 1].mem, es[n - 1].now) {
      g := n - 1;
    } else {
      g := ClearedAtGate(ss, es, n - 1, job);
    }
  }

  /**
  Every job that starts passed the gate before, either while CDM was off or at an
  instant inside a granted session that no later revoke or disable had ended.
  */
  lemma StartedJobPassedGate(ss: seq<Agent>, es: seq<Event>, n: nat) returns (g: nat)
    requires IsRun(ss, es) && ClockInOrder(es) && n < |es| && es[n].Start?
    ensures g < n && es[g].Gate? && es[g].job == es[n].job
    ensures ss[g].mem.enabled <==> InSession(ss, es, g)
  {
    g := ClearedAtGate(ss, es, n, es[n].job);
    SessionAlwaysOk(ss, es, g);
    if ss[g].mem.enabled {
      GateNeedsSession(ss, es, g);
    }
  }

  /** With CDM off there is no session. */
  lemma NoSessionWhenOff(ss: seq<Agent>, es: seq<Event>, g: nat)
    requires IsRun(ss, es) && g < |es| && es[g].Gate? && !ss[g].mem.enabled
    ensures !InSession(ss, es, g)
  {
    SessionAlwaysOk(ss, es, g);
  }

  /** The event writes the state file successfully, or not at all. */
  predicate Persists(e: Event) {
    e.Start? || e.Elsewhere? || e.w.Written?
  }

  /** When every write succeeds, restarts change nothing: no revoke or disable lies between grant and gate. */
  lemma NoEndSinceGrant(ss: seq<Agent>, es: seq<Event>, g: nat, i: nat, k: nat)
    requires IsRun(ss, es) && g <= |es| && MemFrom(ss, es, g, i) && i < k < g
    requires forall m :: 0 <= m < |es| ==> Persists(es[m])
    ensures !Ends(ss[k], es[k])
  {
  }

  /** Behind an open gate: the grant, its window, and no revoke or disable since, when every write succeeds. */
  lemma GrantBehind(ss: seq<Agent>, es: seq<Event>, g: nat) returns (i: nat)
    requires IsRun(ss, es) && g < |es| && es[g].Gate? && InSession(ss, es, g)
    requires forall m :: 0 <= m < |es| ==> Persists(es[m])
    ensures i < g && es[i].Grant? && es[i].now <= es[g].now <= es[i].now + es[i].duration
    ensures forall k :: i < k < g ==> !Ends(ss[k], es[k])
  {
    i :| MemFrom(ss, es, g, i) && es[i].now <= es[g].now <= es[i].now + es[i].duration;
    hide IsRun, Persists, Ends;
    forall k | i < k < g ensures !Ends(ss[k], es[k]) {
      NoEndSinceGrant(ss, es, g, i, k);
    }
  }

  /** What a step of a running agent does to its cleared job runs. */
  lemma ClearedMoves(a: Agent, e: Event, job: JobRun)
    requires !e.Restart?
    ensures Next(a, e).up == a.up
    ensures job in a.cleared && e != Start(job) ==> job in Next(a, e).cleared
    ensures e.Gate? && e.job == job && CanExecute(a.mem, e.now) ==> job in Next(a, e).cleared
  {
  }

  /**
  A job may start under CDM without a session: it passed the gate while CDM was
  off, and CDM was enabled before it started.
  */
  lemma EnabledAfterGate() returns (ss: seq<Agent>, es: seq<Event>)
    ensures IsRun(ss, es) && ClockInOrder(es) && |es| == 3
    ensures es[2].Start? && ss[2].mem.enabled
    ensures forall g: nat :: g < 2 && es[g].Gate? ==> !InSession(ss, es, g)
  {
    var a0 := FRESH;
    es := [Gate(7, 0, Written), Enable(Written), Start(7)];
    var a1 := Next(a0, es[0]);
    var a2 := Next(a1, es[1]);
    ss := [a0, a1, a2, Next(a2, es[2])];
  }
}
