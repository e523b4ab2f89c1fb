/**
The job protocol and the CDM state of every device in one system. The gate of a
worker asks the CDM manager of its own device, a restart ends the device's
workers and reloads its CDM state, and a job run is cleared at the gate and
starts when the worker executes. The two halves of a run are runs of `Executor`
and of `Cdm`, step for step.
*/
module AgentGate {
  import opened Wrappers
  import opened JobServer
  import Cdm
  import Executor

  datatype Fleet = Fleet(sys: Executor.System, agents: map<DeviceId, Cdm.Agent>)

  datatype Action =
    | Server(event: Event)
    | Receive(w: Executor.WorkerId, device: DeviceId, tenant: TenantId, job: JobId)
    | Gate(w: Executor.WorkerId, now: int, write: Cdm.Write)
    | Acknowledge(w: Executor.WorkerId, replyArrives: bool, now: int)
    | Execute(w: Executor.WorkerId, report: JobServer.Report)
    | Report(w: Executor.WorkerId, started: Option<int>, child: JobId, fault: ResultFault, now: int)
    | GiveUp(w: Executor.WorkerId)
    | Customer(device: DeviceId, request: Cdm.Event)
    | Restart(device: DeviceId, now: int, write: Cdm.Write)

  /** What the people at the device, or the poll, can ask of the manager. */
  predicate IsRequest(e: Cdm.Event) {
    e.Enable? || e.Disable? || e.Grant? || e.Revoke? || e.Poll?
  }

  /** A device that nothing has happened to yet is fresh. */
  function AgentOf(f: Fleet, device: DeviceId): Cdm.Agent {
    if device in f.agents then f.agents[device] else Cdm.FRESH
  }

  predicate IsWorkerStep(a: Action) {
    a.Gate? || a.Acknowledge? || a.Execute? || a.Report? || a.GiveUp?
  }

  /** The answer of the device's manager at the gate. */
  predicate GateOpen(f: Fleet, w: Executor.WorkerId, now: int) {
    w in f.sys.workers && Cdm.CanExecute(AgentOf(f, f.sys.workers[w].device).mem, now)
  }

  /** The executor's half of a step. */
  function JobStep(f: Fleet, a: Action): Executor.Action {
    match a
    case Server(e) => Executor.Server(e)
    case Receive(w, device, tenant, job) => Executor.Receive(w, device, tenant, job)
    case Gate(w, now, _) => Executor.Gate(w, GateOpen(f, w, now))
    case Acknowledge(w, replyArrives, now) => Executor.Acknowledge(w, replyArrives, now)
    case Execute(w, report) => Executor.Execute(w, report)
    case Report(w, started, child, fault, now) => Executor.Report(w, started, child, fault, now)
    case GiveUp(w) => Executor.GiveUp(w)
    case Customer(_, _) => Executor.Idle
    case Restart(device, _, _) => Executor.Restart(device)
  }

  /** The CDM half of a step, at one device; a job run is named after its worker. */
  function CdmStep(f: Fleet, a: Action, device: DeviceId): Cdm.Event {
    match a
    case Gate(w, now, write) =>
      if w in f.sys.workers && f.sys.workers[w].device == device then Cdm.Gate(w, now, write) else Cdm.Elsewhere
    case Execute(w, _) =>
      if w in f.sys.workers && f.sys.workers[w].device == device then Cdm.Start(w) else Cdm.Elsewhere
    case Customer(d, request) => if d == device && IsRequest(request) then request else Cdm.Elsewhere
    case Restart(d, now, write) => if d == device then Cdm.Restart(now, write) else Cdm.Elsewhere
    case _ => Cdm.Elsewhere
  }

  /** The device whose CDM state the step may change. */
  function Touched(f: Fleet, a: Action): set<DeviceId> {
    if (a.Gate? || a.Execute?) && a.w in f.sys.workers then {f.sys.workers[a.w].device}
    else if a.Customer? || a.Restart? then {a.device}
    else {}
  }

  /** The executor can take its half, and whatever an agent does needs the agent to be up. */
  ghost predicate CanAct(f: Fleet, a: Action) {
    && Executor.CanAct(f.sys, JobStep(f, a))
    && (IsWorkerStep(a) ==> a.w in f.sys.workers && AgentOf(f, f.sys.workers[a.w].device).up)
    && (a.Receive? ==> AgentOf(f, a.device).up)
    && (a.Customer? ==> IsRequest(a.request) && AgentOf(f, a.device).up)
  }

  function Act(f: Fleet, a: Action): Fleet {
    Fleet(Executor.Act(f.sys, JobStep(f, a)),
          map d | d in f.agents.Keys + Touched(f, a) :: Cdm.Next(AgentOf(f, d), CdmStep(f, a, d)))
  }

  ghost predicate IsRun(fs: seq<Fleet>, acts: seq<Action>) {
    && |fs| == |acts| + 1
    && fs[0] == Fleet(Executor.System(EMPTY, {}, map[]), map[])
    && forall i :: 0 <= i < |acts| ==> CanAct(fs[i], acts[i]) && fs[i + 1] == Act(fs[i], acts[i])
  }

  // ----- the two halves of a run -----

  function Systems(fs: seq<Fleet>): seq<Executor.System> {
    seq(|fs|, i requires 0 <= i < |fs| => fs[i].sys)
  }

  function JobSteps(fs: seq<Fleet>, acts: seq<Action>): seq<Executor.Action>
    requires |fs| == |acts| + 1
  {
    seq(|acts|, i requires 0 <= i < |acts| => JobStep(fs[i], acts[i]))
  }

  function Agents(fs: seq<Fleet>, device: DeviceId): seq<Cdm.Agent> {
    seq(|fs|, i requires 0 <= i < |fs| => AgentOf(fs[i], device))
  }

  function CdmSteps(fs: seq<Fleet>, acts: seq<Action>, device: DeviceId): seq<Cdm.Event>
    requires |fs| == |acts| + 1
  {
    seq(|acts|, i requires 0 <= i < |acts| => CdmStep(fs[i], acts[i], device))
  }

  lemma JobHalf(fs: seq<Fleet>, acts: seq<Action>)
    requires IsRun(fs, acts)
    ensures Executor.IsSystemRun(Systems(fs), JobSteps(fs, acts))
  {
    hide Executor.Act, Executor.CanAct, JobStep;
  }

  /** Every device's CDM state moves by its own half of the step. */
  lemma AgentMoves(f: Fleet, a: Action, device: DeviceId)
    ensures AgentOf(Act(f, a), device) == Cdm.Next(AgentOf(f, device), CdmStep(f, a, device))
  {
  }

  /** A worker past its gate is cleared at its device, and the workers of an agent that is down have ended. */
  predicate Cleared(f: Fleet, w: Executor.WorkerId)
    requires w in f.sys.workers
  {
    var v := f.sys.workers[w];
    && (v.pc != Executor.Ended ==> AgentOf(f, v.device).up)
    && (v.pc == Executor.AtAcknowledge || v.pc == Executor.AtExecute ==> w in AgentOf(f, v.device).cleared)
  }

  ghost predicate Inv(f: Fleet) {
    forall w :: w in f.sys.workers ==> Cleared(f, w)
  }

  lemma ClearedStep(f: Fleet, a: Action, w: Executor.WorkerId)
    requires Inv(f) && CanAct(f, a) && w in Act(f, a).sys.workers
    ensures Cleared(Act(f, a), w)
  {
    var d := Act(f, a).sys.workers[w].device;
    AgentMoves(f, a, d);
    Executor.WorkerMoves(f.sys, JobStep(f, a), w);
    hide Executor.Act, Executor.CanAct;
    assert w in f.sys.workers ==> Cleared(f, w);
    hide Inv, Act, Cdm.Next;
    var e := CdmStep(f, a, d);
    if !e.Restart? {
      Cdm.ClearedMoves(AgentOf(f, d), e, w);
    }
  }

  lemma {:induction false} InvAlways(fs: seq<Fleet>, acts: seq<Action>, n: nat)
    requires IsRun(fs, acts) && n <= |acts|
    ensures Inv(fs[n])
  {
    if n > 0 {
      InvAlways(fs, acts, n - 1);
      hide Act, CanAct, Cleared;
      forall w | w in fs[n].sys.workers ensures Cleared(fs[n], w) {
        ClearedStep(fs[n - 1], acts[n - 1], w);
      }
    }
  }

  /** The CDM half can take every step: an executing worker was cleared, and no agent acts while it is down. */
  lemma CdmCanHappen(f: Fleet, a: Action, device: DeviceId)
    requires Inv(f) && CanAct(f, a)
    ensures Cdm.CanHappen(AgentOf(f, device), CdmStep(f, a, device))
  {
    if a.Execute? {
      assert Cleared(f, a.w);
    }
  }

  lemma CdmHalf(fs: seq<Fleet>, acts: seq<Action>, device: DeviceId)
    requires IsRun(fs, acts)
    ensures Cdm.IsRun(Agents(fs, device), CdmSteps(fs, acts, device))
  {
    hide Act, CanAct, CdmStep, Inv;
    forall i | 0 <= i < |acts|
      ensures Cdm.CanHappen(AgentOf(fs[i], device), CdmStep(fs[i], acts[i], device))
      ensures AgentOf(fs[i + 1], device) == Cdm.Next(AgentOf(fs[i], device), CdmStep(fs[i], acts[i], device))
    {
      InvAlways(fs, acts, i);
      CdmCanHappen(fs[i], acts[i], device);
      AgentMoves(fs[i], acts[i], device);
    }
  }

  // ----- over whole runs -----

  /** A job is executed at most once, CDM and all. */
  lemma ExecutedOnce(fs: seq<Fleet>, acts: seq<Action>, i: nat, k: nat)
    requires IsRun(fs, acts) && i < |acts| && k < |acts| && acts[i].Execute? && acts[k].Execute?
    requires fs[i].sys.workers[acts[i].w].job == fs[k].sys.workers[acts[k].w].job
    ensures i == k
  {
    JobHalf(fs, acts);
    hide IsRun, Executor.IsSystemRun;
    Executor.ExecutedAtMostOnce(Systems(fs), JobSteps(fs, acts), i, k);
  }

  /** The worker's acknowledgement was accepted at step m. */
  ghost predicate AcknowledgedAt(fs: seq<Fleet>, acts: seq<Action>, m: nat, w: Executor.WorkerId)
    requires |fs| == |acts| + 1 && m < |acts|
  {
    && acts[m].Acknowledge? && acts[m].w == w && w in fs[m].sys.workers
    && var v := fs[m].sys.workers[w]; AckAccepted(fs[m].sys.db, Ack(v.job, v.device, v.tenant, acts[m].now))
  }

  /** The worker's gate was open at step g. */
  ghost predicate PassedAt(fs: seq<Fleet>, acts: seq<Action>, g: nat, w: Executor.WorkerId)
    requires |fs| == |acts| + 1 && g < |acts|
  {
    acts[g].Gate? && acts[g].w == w && GateOpen(fs[g], w, acts[g].now)
  }

  lemma NoRestartBetween(fs: seq<Fleet>, acts: seq<Action>, g: nat, k: nat, n: nat, w: Executor.WorkerId)
    requires IsRun(fs, acts) && g <= k < n <= |acts| && w in fs[g].sys.workers && w in fs[n].sys.workers
    requires fs[n].sys.workers[w].pc != Executor.Ended
    ensures !(acts[k].Restart? && acts[k].device == fs[n].sys.workers[w].device)
  {
    var ss, steps := Systems(fs), JobSteps(fs, acts);
    JobHalf(fs, acts);
    hide IsRun, Executor.IsSystemRun;
    Executor.WorkerPersists(ss, steps, g, k, w);
    Executor.WorkerPersists(ss, steps, k, n, w);
    if acts[k].Restart? && acts[k].device == fs[n].sys.workers[w].device {
      assert steps[k] == Executor.Restart(ss[k].workers[w].device);
      Executor.RestartEnds(ss, steps, k, n, w);
    }
  }

  lemma CanExecuteNow(fs: seq<Fleet>, acts: seq<Action>, n: nat)
    requires IsRun(fs, acts) && n < |acts| && acts[n].Execute?
    ensures acts[n].w in fs[n].sys.workers && fs[n].sys.workers[acts[n].w].granted
    ensures fs[n].sys.workers[acts[n].w].pc == Executor.AtExecute
  {
    JobHalf(fs, acts);
    Executor.SystemAlways(Systems(fs), JobSteps(fs, acts), n);
    assert Executor.WorkerOk(fs[n].sys.db, fs[n].sys.workers[acts[n].w]);
  }

  /** Gate, acknowledgement and execution of one worker, in that order and within one life of its agent. */
  lemma ClearedThenExecuted(fs: seq<Fleet>, acts: seq<Action>, n: nat) returns (g: nat, m: nat)
    requires IsRun(fs, acts) && n < |acts| && acts[n].Execute?
    ensures g < m < n && PassedAt(fs, acts, g, acts[n].w) && AcknowledgedAt(fs, acts, m, acts[n].w)
    ensures fs[g].sys.workers[acts[n].w].device == fs[n].sys.workers[acts[n].w].device
    ensures forall k :: g <= k < n ==>
              !(acts[k].Restart? && acts[k].device == fs[n].sys.workers[acts[n].w].device)
  {
    var w, ss, steps := acts[n].w, Systems(fs), JobSteps(fs, acts);
    CanExecuteNow(fs, acts, n);
    JobHalf(fs, acts);
    hide IsRun, Executor.IsSystemRun, AckAccepted;
    g, m := Executor.ExecutionWasCleared(ss, steps, n, w);
    assert steps[g] == JobStep(fs[g], acts[g]) && steps[m] == JobStep(fs[m], acts[m]);
    Executor.WorkerPersists(ss, steps, g, n, w);
    forall k | g <= k < n ensures !(acts[k].Restart? && acts[k].device == fs[n].sys.workers[w].device) {
      NoRestartBetween(fs, acts, g, k, n, w);
    }
  }

  /**
  Every executed job passed its gate before, and its acknowledgement was accepted
  after that. At the gate its device had CDM off, or a session granted there was
  live; what the server believes about CDM plays no part.
  */
  lemma ExecutedInSession(fs: seq<Fleet>, acts: seq<Action>, n: nat) returns (g: nat, m: nat)
    requires IsRun(fs, acts) && n < |acts| && acts[n].Execute?
    requires Cdm.ClockInOrder(CdmSteps(fs, acts, fs[n].sys.workers[acts[n].w].device))
    ensures g < m < n && PassedAt(fs, acts, g, acts[n].w) && AcknowledgedAt(fs, acts, m, acts[n].w)
    ensures var d := fs[n].sys.workers[acts[n].w].device;
            && CdmSteps(fs, acts, d)[g].Gate?
            && (AgentOf(fs[g], d).mem.enabled <==> Cdm.InSession(Agents(fs, d), CdmSteps(fs, acts, d), g))
            && forall k :: g <= k < n ==> !(acts[k].Restart? && acts[k].device == d)
  {
    var d := fs[n].sys.workers[acts[n].w].device;
    g, m := ClearedThenExecuted(fs, acts, n);
    CdmHalf(fs, acts, d);
    hide IsRun, Cdm.IsRun, Cdm.InSession, AcknowledgedAt;
    var agents, es := Agents(fs, d), CdmSteps(fs, acts, d);
    assert agents[g] == AgentOf(fs[g], d) && es[g] == CdmStep(fs[g], acts[g], d);
    if agents[g].mem.enabled {
      Cdm.GateNeedsSession(agents, es, g);
    } else {
      Cdm.NoSessionWhenOff(agents, es, g);
    }
  }

  /** When the device's state writes succeed, no revoke or disable lies between the grant and the gate. */
  lemma GrantBehindGate(fs: seq<Fleet>, acts: seq<Action>, d: DeviceId, g: nat) returns (i: nat)
    requires IsRun(fs, acts) && g < |acts| && CdmSteps(fs, acts, d)[g].Gate?
    requires Cdm.InSession(Agents(fs, d), CdmSteps(fs, acts, d), g)
    requires forall k :: 0 <= k < |acts| ==> Cdm.Persists(CdmSteps(fs, acts, d)[k])
    ensures i < g && acts[i].Customer? && acts[i].device == d && acts[i].request.Grant?
    ensures var es := CdmSteps(fs, acts, d);
            && acts[i].request.now <= es[g].now <= acts[i].request.now + acts[i].request.duration
            && forall k :: i < k < g ==> !Cdm.Ends(AgentOf(fs[k], d), es[k])
  {
    CdmHalf(fs, acts, d);
    hide IsRun, Cdm.IsRun, Cdm.InSession, Cdm.Persists, Cdm.Ends;
    i := Cdm.GrantBehind(Agents(fs, d), CdmSteps(fs, acts, d), g);
    assert CdmSteps(fs, acts, d)[i] == CdmStep(fs[i], acts[i], d);
    forall k | i < k < g ensures !Cdm.Ends(AgentOf(fs[k], d), CdmSteps(fs, acts, d)[k]) {
      assert Agents(fs, d)[k] == AgentOf(fs[k], d);
    }
  }
}
