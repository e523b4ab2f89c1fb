/**
`runJob` as it runs: the worker goroutine against the job store and the CDM
manager. Each stage is one step of the system in `AgentGate`, so the theorems
there hold whatever happens between the stages.
*/
module AgentRun {
  import opened Wrappers
  import opened JobStates
  import opened JobServer
  import opened JobTraces
  import opened JobHandlers
  import opened AgentGate
  import Cdm
  import Executor

  /** The system's tables are the store's, and its CDM state at the device is the manager's. */
  ghost predicate Mirrors(f: Fleet, store: JobStore, manager: Cdm.Manager, device: DeviceId)
    reads store, manager
  {
    && f.sys.db == store.State()
    && AgentOf(f, device).up && AgentOf(f, device).mem == manager.state && AgentOf(f, device).disk == manager.disk
  }

  ghost predicate AtStage(f: Fleet, w: Executor.WorkerId, v: Executor.Worker) {
    w in f.sys.workers && f.sys.workers[w] == v
  }

  /** `acts` are steps that lead from `f` to `f'`. */
  ghost predicate Leads(f: Fleet, acts: seq<AgentGate.Action>, f': Fleet)
    decreases |acts|
  {
    if acts == [] then f == f' else CanAct(f, acts[0]) && Leads(Act(f, acts[0]), acts[1..], f')
  }

  lemma {:induction false} LeadsSnoc(f: Fleet, acts: seq<AgentGate.Action>, g: Fleet, a: AgentGate.Action)
    requires Leads(f, acts, g) && CanAct(g, a)
    ensures Leads(f, acts + [a], Act(g, a))
    decreases |acts|
  {
    hide CanAct, Act;
    if acts == [] {
      assert [a][1..] == [];
    } else {
      LeadsSnoc(Act(f, acts[0]), acts[1..], g, a);
      assert (acts + [a])[1..] == acts[1..] + [a];
    }
  }

  // ----- one stage, one step -----

  lemma GateStep(f: Fleet, w: Executor.WorkerId, v: Executor.Worker, now: int, write: Cdm.Write)
    requires AtStage(f, w, v) && v.pc == Executor.AtGate && AgentOf(f, v.device).up
    ensures var a := Gate(w, now, write); var open := Cdm.CanExecute(AgentOf(f, v.device).mem, now);
            && CanAct(f, a) && Act(f, a).sys.db == f.sys.db && GateOpen(f, w, now) == open
            && AgentOf(Act(f, a), v.device) == Cdm.Next(AgentOf(f, v.device), Cdm.Gate(w, now, write))
            && AtStage(Act(f, a), w, v.(pc := if open then Executor.AtAcknowledge else Executor.Ended))
  {
    AgentMoves(f, Gate(w, now, write), v.device);
  }

  lemma AcknowledgeStep(f: Fleet, w: Executor.WorkerId, v: Executor.Worker, replyArrives: bool, now: int)
    requires AtStage(f, w, v) && v.pc == Executor.AtAcknowledge && AgentOf(f, v.device).up
    ensures var a := AgentGate.Acknowledge(w, replyArrives, now); var e := Ack(v.job, v.device, v.tenant, now);
            && CanAct(f, a) && Act(f, a).sys.db == Next(f.sys.db, e)
            && AgentOf(Act(f, a), v.device) == AgentOf(f, v.device)
            && AtStage(Act(f, a), w, if replyArrives && AckAccepted(f.sys.db, e)
                                     then v.(pc := Executor.AtExecute, granted := true)
                                     else v.(pc := Executor.Ended))
  {
    RowsOnly(f.sys.db, Ack(v.job, v.device, v.tenant, now));
    hide Next, Enabled, AckAccepted;
    AgentMoves(f, AgentGate.Acknowledge(w, replyArrives, now), v.device);
  }

  lemma GiveUpStep(f: Fleet, w: Executor.WorkerId, v: Executor.Worker)
    requires AtStage(f, w, v) && (v.pc == Executor.AtAcknowledge || v.pc.AtReport?) && AgentOf(f, v.device).up
    ensures var a := GiveUp(w);
            && CanAct(f, a) && Act(f, a).sys.db == f.sys.db && AgentOf(Act(f, a), v.device) == AgentOf(f, v.device)
            && AtStage(Act(f, a), w, v.(pc := Executor.Ended))
  {
    AgentMoves(f, GiveUp(w), v.device);
  }

  lemma ExecuteStep(f: Fleet, w: Executor.WorkerId, v: Executor.Worker, report: Report)
    requires AtStage(f, w, v) && v.pc == Executor.AtExecute && AgentOf(f, v.device).up
    ensures var a := Execute(w, report); var g, g' := AgentOf(f, v.device), AgentOf(Act(f, a), v.device);
            && CanAct(f, a) && Act(f, a).sys.db == f.sys.db
            && g'.up && g'.mem == g.mem && g'.disk == g.disk
            && AtStage(Act(f, a), w, v.(pc := Executor.AtReport(report), started := true))
  {
    AgentMoves(f, Execute(w, report), v.device);
  }

  lemma ReportStep(f: Fleet, w: Executor.WorkerId, v: Executor.Worker, started: Option<int>, child: JobId,
                   fault: ResultFault, now: int)
    requires AtStage(f, w, v) && v.pc.AtReport? && AgentOf(f, v.device).up && child !in f.sys.db.jobs
    ensures var a := AgentGate.Report(w, started, child, fault, now);
            var e := Result(v.job, v.device, v.tenant, v.pc.report, started, child, fault, now);
            && CanAct(f, a) && Act(f, a).sys.db == Next(f.sys.db, e)
            && AgentOf(Act(f, a), v.device) == AgentOf(f, v.device)
            && AtStage(Act(f, a), w, v.(pc := Executor.Ended))
  {
    ResultEnabled(f.sys.db, Result(v.job, v.device, v.tenant, v.pc.report, started, child, fault, now));
    hide Next, Enabled;
    AgentMoves(f, AgentGate.Report(w, started, child, fault, now), v.device);
  }

  lemma ResultEnabled(db: Db, e: Event)
    requires e.Result? && e.child !in db.jobs
    ensures Enabled(db, e)
  {
  }

  // ----- the stages -----

  /** The gate asks the manager of the worker's device. */
  method PassGate(store: JobStore, manager: Cdm.Manager, ghost f: Fleet, ghost w: Executor.WorkerId,
                  ghost v: Executor.Worker, now: int, write: Cdm.Write) returns (open: bool, ghost f': Fleet)
    requires Mirrors(f, store, manager, v.device) && AtStage(f, w, v) && v.pc == Executor.AtGate
    modifies manager
    ensures CanAct(f, Gate(w, now, write)) && f' == Act(f, Gate(w, now, write))
    ensures Mirrors(f', store, manager, v.device)
    ensures open <==> GateOpen(f, w, now)
    ensures AtStage(f', w, v.(pc := if open then Executor.AtAcknowledge else Executor.Ended))
  {
    GateStep(f, w, v, now, write);
    hide CanAct, Act, AtStage, AgentOf, GateOpen;
    f' := Act(f, Gate(w, now, write));
    open := manager.CanExecuteJob(now, write);
  }

  /** The acknowledge request; a reply other than success, or none, ends the worker. */
  method SendAcknowledge(store: JobStore, manager: Cdm.Manager, ghost f: Fleet, ghost w: Executor.WorkerId,
                         v: Executor.Worker, fault: DbFault, replyArrives: bool, now: int)
    returns (granted: bool, ghost a: AgentGate.Action, ghost f': Fleet)
    requires store.Valid()
    requires Mirrors(f, store, manager, v.device) && AtStage(f, w, v) && v.pc == Executor.AtAcknowledge
    modifies store
    ensures store.Valid() && CanAct(f, a) && f' == Act(f, a) && Mirrors(f', store, manager, v.device)
    ensures granted <==>
              fault.Healthy? && replyArrives && AckAccepted(old(store.State()), Ack(v.job, v.device, v.tenant, now))
    ensures AtStage(f', w, if granted then v.(pc := Executor.AtExecute, granted := true)
                           else v.(pc := Executor.Ended))
    ensures granted ==> store.State() == Next(old(store.State()), Ack(v.job, v.device, v.tenant, now))
  {
    hide NextAll, AllEnabled, CanAct, Act, AtStage, AgentOf, Next, AckAccepted, WasAcknowledged;
    var reply := store.Acknowledge(v.job, v.device, v.tenant, fault, now);
    granted := reply == NoContent && replyArrives;
    if reply == ServerError {
      a := GiveUp(w);
      GiveUpStep(f, w, v);
    } else {
      a := AgentGate.Acknowledge(w, replyArrives, now);
      AcknowledgeStep(f, w, v, replyArrives, now);
    }
    f' := Act(f, a);
  }

  /** The result request; whatever the reply, the worker is done. */
  method SendResult(store: JobStore, manager: Cdm.Manager, ghost f: Fleet, ghost w: Executor.WorkerId,
                    v: Executor.Worker, started: Option<int>, child: JobId, readFails: bool, fault: ResultFault,
                    now: int)
    returns (sent: bool, ghost a: AgentGate.Action, ghost f': Fleet)
    requires store.Valid() && child !in store.jobs
    requires Mirrors(f, store, manager, v.device) && AtStage(f, w, v) && v.pc.AtReport?
    modifies store
    ensures store.Valid() && CanAct(f, a) && f' == Act(f, a) && Mirrors(f', store, manager, v.device)
    ensures AtStage(f', w, v.(pc := Executor.Ended))
    ensures sent ==> !v.pc.report.ReportOther?
    ensures var e := Result(v.job, v.device, v.tenant, v.pc.report, started, child, fault, now);
            store.State() == if readFails && !v.pc.report.ReportOther? then old(store.State())
                             else Next(old(store.State()), e)
  {
    hide NextAll, AllEnabled, CanAct, Act, AtStage, AgentOf, Next, ResultAccepted, WasReported;
    var reply := store.SubmitResult(v.job, v.device, v.tenant, v.pc.report, started, child, readFails, fault, now);
    sent := reply == NoContent;
    if readFails && !v.pc.report.ReportOther? {
      a := GiveUp(w);
      GiveUpStep(f, w, v);
    } else {
      a := AgentGate.Report(w, started, child, fault, now);
      ReportStep(f, w, v, started, child, fault, now);
    }
    f' := Act(f, a);
  }

  // ----- the whole of it -----

  /** The status a report leaves an acknowledged job in. */
  function StatusAfterReport(report: Report, readFails: bool, fault: ResultFault): Status {
    if readFails || fault.InsertFails? || fault.UpdateFails? then Acknowledged
    else
      match report
      case ReportCompleted => Completed
      case ReportFailed => Failed
      case ReportTimedOut => TimedOut
      case ReportOther => Acknowledged
  }

  lemma ReportedRow(db: Db, ack: Event, e: Event, readFails: bool)
    requires AckAccepted(db, ack) && e.Result? && e.child !in db.jobs
    requires e.id == ack.id && e.device == ack.device && e.tenant == ack.tenant
    ensures e.child !in Next(db, ack).jobs
    ensures var db' := if readFails && !e.report.ReportOther? then Next(db, ack) else Next(Next(db, ack), e);
            e.id in db'.jobs && db'.jobs[e.id].status == StatusAfterReport(e.report, readFails, e.fault)
  {
    AckRow(db, ack);
    var acked := Next(db, ack);
    if ResultAccepted(acked, e) {
      ResultWritten(acked, e);
    } else {
      ResultIgnored(acked, e);
    }
    hide Next;
  }

  /**
  `runJob` from gate to report is a sequence of system steps of its worker; no
  manager means no step at all. The job is executed exactly if the gate was open
  and the server said yes. A status other than completed, failed or timed_out is
  refused, so the restart that should follow a "restarting" report is never reached.
  */
  method RunJob(store: JobStore, manager: Cdm.Manager?, ghost f: Fleet, ghost w: Executor.WorkerId,
                v: Executor.Worker, write: Cdm.Write, ackFault: DbFault, replyArrives: bool, report: Report,
                started: Option<int>, child: JobId, readFails: bool, fault: ResultFault, now: int)
    returns (executed: bool, restarted: bool, ghost acts: seq<AgentGate.Action>, ghost f': Fleet)
    requires store.Valid() && child !in store.jobs && v.pc == Executor.AtGate && !v.granted && !v.started
    requires manager != null ==> Mirrors(f, store, manager, v.device) && AtStage(f, w, v)
    modifies store, if manager == null then {} else {manager}
    ensures store.Valid() && !restarted
    ensures manager == null ==> acts == [] && f' == f && store.State() == old(store.State())
    ensures manager != null ==>
              && Leads(f, acts, f') && Mirrors(f', store, manager, v.device)
              && AtStage(f', w, v.(pc := Executor.Ended, granted := executed, started := executed))
    ensures executed <==>
              && manager != null && Cdm.CanExecute(old(manager.state), now) && ackFault.Healthy? && replyArrives
              && AckAccepted(old(store.State()), Ack(v.job, v.device, v.tenant, now))
    ensures executed ==>
              v.job in store.jobs && store.jobs[v.job].status == StatusAfterReport(report, readFails, fault)
  {
    hide NextAll, AllEnabled, CanAct, Act, AtStage, AgentOf, Next, AckAccepted, Cdm.CanExecute;
    executed, restarted, acts, f' := false, false, [], f;
    assert Leads(f, [], f);
    hide Leads;
    if manager == null {
      return;
    }
    GateAnswer(f, w, v, now);
    var open, f1 := PassGate(store, manager, f, w, v, now, write);
    LeadsSnoc(f, [], f, Gate(w, now, write));
    acts, f' := [] + [Gate(w, now, write)], f1;
    if !open {
      return;
    }
    ghost var ack := Ack(v.job, v.device, v.tenant, now);
    ghost var db := store.State();
    var v1 := v.(pc := Executor.AtAcknowledge);
    var granted, a2, f2 := SendAcknowledge(store, manager, f1, w, v1, ackFault, replyArrives, now);
    LeadsSnoc(f, acts, f1, a2);
    acts, f' := acts + [a2], f2;
    if !granted {
      return;
    }
    executed := true;
    var v2 := v1.(pc := Executor.AtExecute, granted := true);
    ExecuteStep(f2, w, v2, report);
    ghost var f3 := Act(f2, Execute(w, report));
    LeadsSnoc(f, acts, f2, Execute(w, report));
    acts := acts + [Execute(w, report)];
    var v3 := v2.(pc := Executor.AtReport(report), started := true);
    ReportedRow(db, ack, Result(v.job, v.device, v.tenant, report, started, child, fault, now), readFails);
    var sent, a4, f4 := SendResult(store, manager, f3, w, v3, started, child, readFails, fault, now);
    LeadsSnoc(f, acts, f3, a4);
    acts, f' := acts + [a4], f4;
    if !sent {
      return;
    }
    restarted := report.ReportOther?;
  }

  lemma GateAnswer(f: Fleet, w: Executor.WorkerId, v: Executor.Worker, now: int)
    requires AtStage(f, w, v)
    ensures GateOpen(f, w, now) <==> Cdm.CanExecute(AgentOf(f, v.device).mem, now)
  {
  }
}
