/**
The agent half of the job protocol (`Executor.runJob`) running against the
server tables. A worker is one goroutine: gate, acknowledge, execute, report.
Check-in replies may be lost, delayed or delivered more than once, requests may
be processed while their reply is lost, the agent may restart at any point, and
the server may perform any other event, including requests no worker sent.
*/
module Executor {
  import opened Wrappers
  import opened JobStates
  import opened JobServer
  import opened JobRuns

  type WorkerId = nat

  /** Where a worker stands in `runJob`. */
  datatype Pc = AtGate | AtAcknowledge | AtExecute | AtReport(report: Report) | Ended

  /** `granted` and `started` record that the worker's acknowledgement was answered and that it executed. */
  datatype Worker = Worker(job: JobId, device: DeviceId, tenant: TenantId, pc: Pc, granted: bool, started: bool)

  /** `offers`: every (device, tenant, job) that some check-in reply carried. */
  datatype System = System(db: Db, offers: set<(DeviceId, TenantId, JobId)>, workers: map<WorkerId, Worker>)

  /**
  `GiveUp` is a request that failed without any effect; `Idle` stands for steps
  of the agents that touch neither jobs nor workers.
  */
  datatype Action =
    | Server(event: Event)
    | Receive(w: WorkerId, device: DeviceId, tenant: TenantId, job: JobId)
    | Gate(w: WorkerId, allowed: bool)
    | Acknowledge(w: WorkerId, replyArrives: bool, now: int)
    | Execute(w: WorkerId, report: Report)
    | Report(w: WorkerId, started: Option<int>, child: JobId, fault: ResultFault, now: int)
    | GiveUp(w: WorkerId)
    | Restart(device: DeviceId)
    | Idle

  /** The server event an action causes, if any. */
  function Request(s: System, a: Action): Option<Event> {
    match a
    case Server(e) => Some(e)
    case Acknowledge(w, _, now) =>
      if w in s.workers then Some(Ack(s.workers[w].job, s.workers[w].device, s.workers[w].tenant, now)) else None
    case Report(w, started, child, fault, now) =>
      if w in s.workers && s.workers[w].pc.AtReport? then
        Some(Result(s.workers[w].job, s.workers[w].device, s.workers[w].tenant, s.workers[w].pc.report,
                    started, child, fault, now))
      else None
    case _ => None
  }

  ghost predicate CanAct(s: System, a: Action) {
    && (Request(s, a).Some? ==> Enabled(s.db, Request(s, a).value))
    && match a
       case Server(_) => true
       case Receive(w, device, tenant, job) => w !in s.workers && (device, tenant, job) in s.offers
       case Gate(w, _) => w in s.workers && s.workers[w].pc == AtGate
       case Acknowledge(w, _, _) => w in s.workers && s.workers[w].pc == AtAcknowledge
       case Execute(w, _) => w in s.workers && s.workers[w].pc == AtExecute
       case Report(w, _, _, _, _) => w in s.workers && s.workers[w].pc.AtReport?
       case GiveUp(w) => w in s.workers && (s.workers[w].pc == AtAcknowledge || s.workers[w].pc.AtReport?)
       case Restart(_) => true
       case Idle => true
  }

  function DbAfter(s: System, a: Action): Db {
    if Request(s, a).Some? then Next(s.db, Request(s, a).value) else s.db
  }

  function OffersAfter(s: System, a: Action): set<(DeviceId, TenantId, JobId)> {
    if a.Server? && a.event.Dispatch? then
      s.offers + (set id | id in a.event.picked && id !in a.event.lost :: (a.event.device, a.event.tenant, id))
    else s.offers
  }

  /** The acting worker's next state; every early return of `runJob` ends the worker. */
  function WorkerAfter(s: System, a: Action, w: Worker): Worker {
    match a
    case Gate(_, allowed) => w.(pc := if allowed then AtAcknowledge else Ended)
    case Acknowledge(_, replyArrives, _) =>
      if Request(s, a).Some? && AckAccepted(s.db, Request(s, a).value) && replyArrives
      then w.(pc := AtExecute, granted := true) else w.(pc := Ended)
    case Execute(_, report) => w.(pc := AtReport(report), started := true)
    case Report(_, _, _, _, _) => w.(pc := Ended)
    case GiveUp(_) => w.(pc := Ended)
    case _ => w
  }

  function WorkersAfter(s: System, a: Action): map<WorkerId, Worker> {
    match a
    case Server(_) => s.workers
    case Idle => s.workers
    case Receive(w, device, tenant, job) => s.workers[w := Worker(job, device, tenant, AtGate, false, false)]
    case Restart(device) =>
      map w | w in s.workers :: if s.workers[w].device == device then s.workers[w].(pc := Ended) else s.workers[w]
    case _ => if a.w in s.workers then s.workers[a.w := WorkerAfter(s, a, s.workers[a.w])] else s.workers
  }

  function Act(s: System, a: Action): System {
    System(DbAfter(s, a), OffersAfter(s, a), WorkersAfter(s, a))
  }

  ghost predicate IsSystemRun(ss: seq<System>, acts: seq<Action>) {
    && |ss| == |acts| + 1
    && ss[0].db == EMPTY && ss[0].offers == {} && ss[0].workers == map[]
    && forall i :: 0 <= i < |acts| ==> CanAct(ss[i], acts[i]) && ss[i + 1] == Act(ss[i], acts[i])
  }

  // ----- the invariant -----

  /** A granted worker's job is past acknowledgement, and belongs to the worker's device. */
  predicate WorkerOk(db: Db, w: Worker) {
    && (w.granted ==>
          w.job in db.jobs && Stage(db.jobs[w.job].status) >= 1 && Owned(db.jobs[w.job], w.device, w.tenant))
    && (w.started ==> w.granted)
    && (w.pc == AtExecute ==> w.granted && !w.started)
    && (w.pc == AtGate || w.pc == AtAcknowledge ==> !w.granted)
  }

  predicate BothGranted(v: Worker, w: Worker) {
    v.granted && w.granted && v.job == w.job
  }

  ghost predicate SystemInv(s: System) {
    && Inv(s.db)
    && (forall w :: w in s.workers ==> WorkerOk(s.db, s.workers[w]))
    && (forall v, w :: v in s.workers && w in s.workers && BothGranted(s.workers[v], s.workers[w]) ==> v == w)
  }

  lemma WorkerOkKept(db: Db, e: Event, w: Worker)
    requires Inv(db) && Enabled(db, e) && WorkerOk(db, w)
    ensures WorkerOk(Next(db, e), w)
  {
    if w.granted {
      RowStep(db, e, w.job);
    }
  }

  /** A worker that the step does not touch stays well formed. */
  lemma OtherWorkers(s: System, a: Action, w: Worker)
    requires SystemInv(s) && CanAct(s, a) && WorkerOk(s.db, w)
    ensures WorkerOk(Act(s, a).db, w)
  {
    if Request(s, a).Some? {
      WorkerOkKept(s.db, Request(s, a).value, w);
    }
  }

  /** An accepted acknowledgement puts the job past the point where another one could be accepted. */
  lemma Granted(s: System, a: Action)
    requires SystemInv(s) && CanAct(s, a) && a.Acknowledge? && WorkerAfter(s, a, s.workers[a.w]).granted
    ensures WorkerOk(Act(s, a).db, WorkerAfter(s, a, s.workers[a.w]))
    ensures s.workers[a.w].job in s.db.jobs && Stage(s.db.jobs[s.workers[a.w].job].status) == 0
  {
    hide Next, Inv, Enabled;
    assert WorkerOk(s.db, s.workers[a.w]);
    AckStage(s.db, Request(s, a).value);
    hide AckAccepted;
  }

  lemma ActingWorker(s: System, a: Action)
    requires SystemInv(s) && CanAct(s, a) && (a.Gate? || a.Acknowledge? || a.Execute? || a.Report? || a.GiveUp?)
    ensures WorkerOk(Act(s, a).db, WorkerAfter(s, a, s.workers[a.w]))
  {
    var w := s.workers[a.w];
    assert WorkerOk(s.db, w);
    if a.Acknowledge? && WorkerAfter(s, a, w).granted {
      Granted(s, a);
    } else {
      OtherWorkers(s, a, w);
    }
  }

  lemma WorkersOk(s: System, a: Action, w: WorkerId)
    requires SystemInv(s) && CanAct(s, a) && w in Act(s, a).workers
    ensures WorkerOk(Act(s, a).db, Act(s, a).workers[w])
  {
    hide DbAfter;
    if w in s.workers {
      OtherWorkers(s, a, s.workers[w]);
    }
    if a.Gate? || a.Acknowledge? || a.Execute? || a.Report? || a.GiveUp? {
      ActingWorker(s, a);
    }
  }

  lemma WinnersUnique(s: System, a: Action, v: WorkerId, w: WorkerId)
    requires SystemInv(s) && CanAct(s, a)
    requires var ws := Act(s, a).workers; v in ws && w in ws && BothGranted(ws[v], ws[w])
    ensures v == w
  {
    hide DbAfter;
    if a.Acknowledge? && WorkerAfter(s, a, s.workers[a.w]).granted {
      Granted(s, a);
      assert forall x :: x in s.workers ==> WorkerOk(s.db, s.workers[x]);
    }
  }

  lemma SystemStep(s: System, a: Action)
    requires SystemInv(s) && CanAct(s, a)
    ensures SystemInv(Act(s, a))
  {
    if Request(s, a).Some? {
      InvStep(s.db, Request(s, a).value);
    }
    hide DbAfter, WorkersAfter, Inv;
    var s' := Act(s, a);
    forall w | w in s'.workers ensures WorkerOk(s'.db, s'.workers[w]) {
      WorkersOk(s, a, w);
    }
    forall v, w | v in s'.workers && w in s'.workers && BothGranted(s'.workers[v], s'.workers[w]) ensures v == w {
      WinnersUnique(s, a, v, w);
    }
  }

  lemma {:induction false} SystemAlways(ss: seq<System>, acts: seq<Action>, n: nat)
    requires IsSystemRun(ss, acts) && n <= |acts|
    ensures SystemInv(ss[n])
  {
    if n > 0 {
      SystemAlways(ss, acts, n - 1);
      hide Act, CanAct, SystemInv;
      SystemStep(ss[n - 1], acts[n - 1]);
    }
  }

  /** What a worker is for stays; what it has done is not undone. */
  lemma {:induction false} WorkerPersists(ss: seq<System>, acts: seq<Action>, i: nat, k: nat, w: WorkerId)
    requires IsSystemRun(ss, acts) && i <= k <= |acts| && w in ss[i].workers
    ensures w in ss[k].workers && ss[k].workers[w].job == ss[i].workers[w].job
    ensures ss[k].workers[w].device == ss[i].workers[w].device
    ensures ss[i].workers[w].granted ==> ss[k].workers[w].granted
    ensures ss[i].workers[w].started ==> ss[k].workers[w].started
  {
    hide DbAfter, AckAccepted;
    if i < k {
      WorkerPersists(ss, acts, i, k - 1, w);
    }
  }

  /**
  The agent executes a job at most once, however often it was dispatched, in
  every interleaving with requeues, reapers, cancels, revocations and restarts.
  */
  lemma ExecutedAtMostOnce(ss: seq<System>, acts: seq<Action>, i: nat, k: nat)
    requires IsSystemRun(ss, acts) && i < |acts| && k < |acts| && acts[i].Execute? && acts[k].Execute?
    requires ss[i].workers[acts[i].w].job == ss[k].workers[acts[k].w].job
    ensures i == k
  {
    var lo, hi := if i < k then i else k, if i < k then k else i;
    if lo < hi {
      var v, w := acts[lo].w, acts[hi].w;
      SystemAlways(ss, acts, lo);
      SystemAlways(ss, acts, hi);
      assert WorkerOk(ss[lo].db, ss[lo].workers[v]) && WorkerOk(ss[hi].db, ss[hi].workers[w]);
      assert v in ss[lo + 1].workers && ss[lo + 1].workers[v].started && ss[lo + 1].workers[v].granted &&
             ss[lo + 1].workers[v].job == ss[lo].workers[v].job;
      WorkerPersists(ss, acts, lo + 1, hi, v);
    }
  }

  /** An execution was preceded, in this worker, by an open gate and then an accepted acknowledgement. */
  lemma {:induction false} ExecutionWasCleared(ss: seq<System>, acts: seq<Action>, n: nat, w: WorkerId)
    returns (g: nat, m: nat)
    requires IsSystemRun(ss, acts) && n <= |acts| && w in ss[n].workers && ss[n].workers[w].granted
    ensures g < m < n && acts[g] == Gate(w, true) && acts[m].Acknowledge? && acts[m].w == w
    ensures w in ss[m].workers && Request(ss[m], acts[m]).Some? && AckAccepted(ss[m].db, Request(ss[m], acts[m]).value)
  {
    hide DbAfter, OffersAfter;
    var s, a := ss[n - 1], acts[n - 1];
    if w in s.workers && s.workers[w].granted {
      g, m := ExecutionWasCleared(ss, acts, n - 1, w);
    } else {
      m := n - 1;
      g := GatePassed(ss, acts, n - 1, w);
    }
  }

  lemma {:induction false} GatePassed(ss: seq<System>, acts: seq<Action>, n: nat, w: WorkerId) returns (g: nat)
    requires IsSystemRun(ss, acts) && n <= |acts| && w in ss[n].workers && ss[n].workers[w].pc == AtAcknowledge
    ensures g < n && acts[g] == Gate(w, true)
  {
    hide DbAfter, OffersAfter, AckAccepted;
    if acts[n - 1] == Gate(w, true) {
      g := n - 1;
    } else {
      g := GatePassed(ss, acts, n - 1, w);
    }
  }

  /** Where a step can take a worker. */
  lemma WorkerMoves(s: System, a: Action, w: WorkerId)
    requires CanAct(s, a) && w in Act(s, a).workers
    ensures var v := Act(s, a).workers[w];
            && (w !in s.workers ==> a.Receive? && a.device == v.device && v.pc == AtGate)
            && (w in s.workers ==>
                  && v.device == s.workers[w].device
                  && (v.pc == s.workers[w].pc || v.pc == Ended || v.pc.AtReport? ||
                      (v.pc == AtAcknowledge && a == Gate(w, true)) ||
                      (v.pc == AtExecute && s.workers[w].pc == AtAcknowledge))
                  && (s.workers[w].pc == Ended ==> v.pc == Ended))
            && (a.Execute? && a.w == w ==> v.pc.AtReport?)
            && (a == Restart(v.device) ==> v.pc == Ended)
  {
    hide DbAfter, OffersAfter, AckAccepted;
  }

  /** A worker whose device restarts has ended, for good. */
  lemma {:induction false} RestartEnds(ss: seq<System>, acts: seq<Action>, k: nat, n: nat, w: WorkerId)
    requires IsSystemRun(ss, acts) && k < n <= |acts|
    requires w in ss[k].workers && acts[k] == Restart(ss[k].workers[w].device)
    ensures w in ss[n].workers && ss[n].workers[w].pc == Ended
  {
    hide DbAfter, OffersAfter, AckAccepted;
    if k < n - 1 {
      RestartEnds(ss, acts, k, n - 1, w);
    }
  }

  // ----- who is offered what -----

  /** An offered job belongs to the device and tenant it is offered to. */
  predicate OfferOk(db: Db, o: (DeviceId, TenantId, JobId)) {
    o.2 in db.jobs && db.jobs[o.2].device == o.0 && db.jobs[o.2].tenant == o.1
  }

  lemma OfferStep(s: System, a: Action, o: (DeviceId, TenantId, JobId))
    requires Inv(s.db) && CanAct(s, a) && o in Act(s, a).offers
    requires o in s.offers ==> OfferOk(s.db, o)
    ensures OfferOk(Act(s, a).db, o)
  {
    hide WorkersAfter, Next;
    if o !in s.offers {
      PickedIsQueued(s.db, a.event, o.2);
    }
    if Request(s, a).Some? {
      RowStep(s.db, Request(s, a).value, o.2);
    }
  }

  /** On every run a check-in reply offers a device its own jobs only, and a worker works on a job of its own device. */
  lemma {:induction false} OffersOwnJobs(ss: seq<System>, acts: seq<Action>, n: nat)
    requires IsSystemRun(ss, acts) && n <= |acts|
    ensures forall o :: o in ss[n].offers ==>
              && o.2 in ss[n].db.jobs && ss[n].db.jobs[o.2].device == o.0
              && ss[n].db.jobs[o.2].tenant == o.1
    ensures forall w :: w in ss[n].workers ==>
              && ss[n].workers[w].job in ss[n].db.jobs
              && ss[n].db.jobs[ss[n].workers[w].job].device == ss[n].workers[w].device
              && ss[n].db.jobs[ss[n].workers[w].job].tenant == ss[n].workers[w].tenant
  {
    if n > 0 {
      OffersOwnJobs(ss, acts, n - 1);
      SystemAlways(ss, acts, n - 1);
      hide CanAct, Act, SystemInv;
      forall o | o in ss[n].offers ensures OfferOk(ss[n].db, o) {
        assert o in ss[n - 1].offers ==> OfferOk(ss[n - 1].db, o);
        InvOf(ss[n - 1]);
        OfferStep(ss[n - 1], acts[n - 1], o);
      }
      forall w | w in ss[n].workers
        ensures (ss[n].workers[w].device, ss[n].workers[w].tenant, ss[n].workers[w].job) in ss[n].offers
      {
        WorkerOffered(ss, acts, n, w);
      }
    }
  }

  lemma InvOf(s: System)
    requires SystemInv(s)
    ensures Inv(s.db)
  {
  }

  /** Every worker was started by an offer. */
  lemma {:induction false} WorkerOffered(ss: seq<System>, acts: seq<Action>, n: nat, w: WorkerId)
    requires IsSystemRun(ss, acts) && n <= |acts| && w in ss[n].workers
    ensures (ss[n].workers[w].device, ss[n].workers[w].tenant, ss[n].workers[w].job) in ss[n].offers
  {
    hide DbAfter, AckAccepted;
    if w in ss[n - 1].workers {
      WorkerOffered(ss, acts, n - 1, w);
    }
  }

  /** Step i was a check-in of the device that marked the job dispatched. */
  ghost predicate MarkedAt(ss: seq<System>, acts: seq<Action>, i: nat, o: (DeviceId, TenantId, JobId))
    requires |ss| == |acts| + 1 && i < |acts|
  {
    && acts[i].Server? && acts[i].event.Dispatch? && acts[i].event.device == o.0 && acts[i].event.tenant == o.1
    && o.2 in acts[i].event.picked && o.2 in ss[i + 1].db.jobs && ss[i + 1].db.jobs[o.2].status == Dispatched
    && ss[i + 1].db.jobs[o.2].dispatchedAt == Some(acts[i].event.now)
  }

  lemma OfferMarks(s: System, a: Action, o: (DeviceId, TenantId, JobId))
    requires CanAct(s, a) && o in Act(s, a).offers && o !in s.offers
    ensures a.Server? && a.event.Dispatch? && a.event.device == o.0 && a.event.tenant == o.1
    ensures o.2 in a.event.picked && o.2 in Act(s, a).db.jobs
    ensures Act(s, a).db.jobs[o.2].status == Dispatched && Act(s, a).db.jobs[o.2].dispatchedAt == Some(a.event.now)
  {
    hide WorkersAfter, Next, Enabled;
    PickedIsQueued(s.db, a.event, o.2);
    NextRow(s.db, a.event, o.2);
  }

  /** Whatever a reply offered was marked dispatched by that check-in. */
  lemma {:induction false} OfferedWasMarked(ss: seq<System>, acts: seq<Action>, n: nat, o: (DeviceId, TenantId, JobId))
    returns (i: nat)
    requires IsSystemRun(ss, acts) && n <= |acts| && o in ss[n].offers
    ensures i < n && MarkedAt(ss, acts, i, o)
  {
    hide CanAct, Act;
    if o in ss[n - 1].offers {
      i := OfferedWasMarked(ss, acts, n - 1, o);
    } else {
      i := n - 1;
      OfferMarks(ss[n - 1], acts[n - 1], o);
    }
  }
}
