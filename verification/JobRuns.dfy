/**
Properties of every run of the job protocol: each interleaving of check-ins,
requeues, reapers, cancels, revocations, acknowledgements and results.
*/
module JobRuns {
  import opened Wrappers
  import opened JobStates
  import opened JobServer

  /** `dbs` are the tables before, between and after the events `es`. */
  ghost predicate IsRun(dbs: seq<Db>, es: seq<Event>) {
    && |dbs| == |es| + 1
    && dbs[0] == EMPTY
    && forall i :: 0 <= i < |es| ==> Enabled(dbs[i], es[i]) && dbs[i + 1] == Next(dbs[i], es[i])
  }

  // ----- one step -----

  lemma NextRow(db: Db, e: Event, id: JobId)
    requires Enabled(db, e) && id in db.jobs
    ensures id in Next(db, e).jobs && Next(db, e).jobs[id] == RowAfter(e, id, db.jobs[id])
  {
    assert id !in Inserted(db, e).Keys;
  }

  /**
  Simulation. A status write other than the failed-update report follows one or
  two edges of the table; the report is such a path exactly from `acknowledged`
  and `running`.
  */
  lemma StatusWriteFollowsTable(db: Db, e: Event, id: JobId)
    requires Enabled(db, e) && id in db.jobs
    ensures id in Next(db, e).jobs
    ensures var s, s' := db.jobs[id].status, Next(db, e).jobs[id].status;
            s != s' ==>
              && (!e.FailReport? ==> ShortPath(s, s'))
              && (e.FailReport? ==> s' == Failed && (ShortPath(s, s') <==> s == Acknowledged || s == Running))
    ensures var s, s' := db.jobs[id].status, Next(db, e).jobs[id].status;
            s != s' && !ValidateTransition(s, s') ==>
              e.FailReport? || e.Release? || e.Result? || e.ReapInflight?
  {
    NextRow(db, e, id);
    var s, s' := db.jobs[id].status, Next(db, e).jobs[id].status;
    if s != s' {
      if e.FailReport? {
        ShortPathToFailed(s);
      } else if ValidateTransition(s, s') {
        EdgeIsShort(s, s');
      } else if e.Release? {
        TwoEdgesAreShort(s, Dispatched, s');
      } else {
        TwoEdgesAreShort(s, Running, s');
      }
    }
  }

  /** Rows that handlers can leave behind. */
  predicate RowOk(j: Job) {
    && j.status != Pending && j.status != Running
    && (j.status == Dispatched ==> j.dispatchedAt.Some?)
    && (j.status == Acknowledged ==> j.acknowledgedAt.Some?)
    && (!IsTerminal(j.status) ==> j.startedAt.None?)
  }

  /** A recorded automatic retry: the parent is finished, the child one attempt further. */
  predicate RetryOk(jobs: map<JobId, Job>, r: (JobId, JobId)) {
    && r.0 in jobs && r.1 in jobs
    && IsTerminal(jobs[r.0].status)
    && jobs[r.1].parent == Some(r.0)
    && jobs[r.1].retryCount == jobs[r.0].retryCount + 1 <= jobs[r.0].maxRetries
    && jobs[r.1].maxRetries == jobs[r.0].maxRetries
    && jobs[r.1].device == jobs[r.0].device
  }

  ghost predicate Inv(db: Db) {
    && (forall id :: id in db.jobs ==> RowOk(db.jobs[id]))
    && (forall i :: 0 <= i < |db.autoRetries| ==> RetryOk(db.jobs, db.autoRetries[i]))
    && (forall i, k :: 0 <= i < k < |db.autoRetries| ==> db.autoRetries[i].0 != db.autoRetries[k].0)
  }

  /** Columns no event writes, and the direction of the status column. */
  predicate RowEvolves(j: Job, j': Job) {
    && j'.tenant == j.tenant && j'.device == j.device && j'.parent == j.parent
    && j'.retryCount == j.retryCount && j'.maxRetries == j.maxRetries
    && Stage(j.status) <= Stage(j'.status)
    && (IsTerminal(j.status) ==> j'.status == j.status || j'.status == Failed)
  }

  /** A fetch only returns queued rows of its device. */
  lemma PickedIsQueued(db: Db, e: Event, id: JobId)
    requires Enabled(db, e) && e.Dispatch? && id in e.picked
    ensures id in db.jobs && db.jobs[id].status == Queued
    ensures db.jobs[id].device == e.device && db.jobs[id].tenant == e.tenant
  {
    var i :| 0 <= i < |e.picked| && e.picked[i] == id;
  }

  lemma RowAfterEvolves(e: Event, id: JobId, j: Job)
    requires RowOk(j)
    requires e.Dispatch? && id in e.picked ==> j.status == Queued
    ensures RowOk(RowAfter(e, id, j)) && RowEvolves(j, RowAfter(e, id, j))
    ensures IsTerminal(j.status) && RowAfter(e, id, j).status != j.status ==> e.FailReport? && e.id == id
  {
  }

  lemma RowStep(db: Db, e: Event, id: JobId)
    requires Enabled(db, e) && id in db.jobs && RowOk(db.jobs[id])
    ensures id in Next(db, e).jobs && Next(db, e).jobs[id] == RowAfter(e, id, db.jobs[id])
    ensures RowOk(Next(db, e).jobs[id]) && RowEvolves(db.jobs[id], Next(db, e).jobs[id])
  {
    NextRow(db, e, id);
    if e.Dispatch? && id in e.picked {
      PickedIsQueued(db, e, id);
    }
    RowAfterEvolves(e, id, db.jobs[id]);
  }

  /** An inserted row starts queued, with no timestamps but its creation. */
  lemma NewRow(db: Db, e: Event, id: JobId)
    requires id in Next(db, e).jobs && id !in db.jobs
    ensures Next(db, e).jobs[id].status == Queued && RowOk(Next(db, e).jobs[id])
  {
  }

  lemma RetryStep(db: Db, e: Event, r: (JobId, JobId))
    requires Inv(db) && Enabled(db, e) && RetryOk(db.jobs, r)
    ensures RetryOk(Next(db, e).jobs, r)
  {
    RowStep(db, e, r.0);
    RowStep(db, e, r.1);
  }

  lemma NewRetry(db: Db, e: Event)
    requires Inv(db) && Enabled(db, e) && AutoRetried(db, e)
    ensures RetryOk(Next(db, e).jobs, (e.id, e.child))
    ensures !IsTerminal(db.jobs[e.id].status)
  {
    assert Next(db, e).jobs[e.child] == Inserted(db, e)[e.child];
    ResultStage(db, e);
    hide Next, RowAfter;
    RowStep(db, e, e.id);
  }

  lemma InvRows(db: Db, e: Event, id: JobId)
    requires Inv(db) && Enabled(db, e) && id in Next(db, e).jobs
    ensures RowOk(Next(db, e).jobs[id])
  {
    hide Next, RowAfter;
    if id in db.jobs {
      RowStep(db, e, id);
    } else {
      NewRow(db, e, id);
    }
  }

  lemma InvRetries(db: Db, e: Event, rs: seq<(JobId, JobId)>)
    requires Inv(db) && Enabled(db, e) && rs == Next(db, e).autoRetries
    ensures forall i :: 0 <= i < |rs| ==> RetryOk(Next(db, e).jobs, rs[i])
    ensures forall i, k :: 0 <= i < k < |rs| ==> rs[i].0 != rs[k].0
  {
    assert rs == if AutoRetried(db, e) then db.autoRetries + [(e.id, e.child)] else db.autoRetries;
    hide Next, AutoRetried;
    forall i | 0 <= i < |db.autoRetries| ensures RetryOk(Next(db, e).jobs, db.autoRetries[i]) {
      RetryStep(db, e, db.autoRetries[i]);
    }
    if AutoRetried(db, e) {
      NewRetry(db, e);
      assert forall i :: 0 <= i < |db.autoRetries| ==> RetryOk(db.jobs, db.autoRetries[i]);
    }
  }

  lemma InvStep(db: Db, e: Event)
    requires Inv(db) && Enabled(db, e)
    ensures Inv(Next(db, e))
  {
    hide Next;
    forall id | id in Next(db, e).jobs ensures RowOk(Next(db, e).jobs[id]) {
      InvRows(db, e, id);
    }
    InvRetries(db, e, Next(db, e).autoRetries);
  }

  lemma {:induction false} InvAlways(dbs: seq<Db>, es: seq<Event>, n: nat)
    requires IsRun(dbs, es) && n <= |es|
    ensures Inv(dbs[n])
  {
    if n > 0 {
      InvAlways(dbs, es, n - 1);
      InvStep(dbs[n - 1], es[n - 1]);
    }
  }

  /** Rows are never deleted; their fixed columns stay and their stage never falls. */
  lemma {:induction false} RowPersists(dbs: seq<Db>, es: seq<Event>, i: nat, k: nat, id: JobId)
    requires IsRun(dbs, es) && i <= k <= |es| && id in dbs[i].jobs
    ensures id in dbs[k].jobs && RowEvolves(dbs[i].jobs[id], dbs[k].jobs[id])
  {
    hide Next, RowAfter, Enabled;
    if i < k {
      RowPersists(dbs, es, i, k - 1, id);
      InvAlways(dbs, es, k - 1);
      RowStep(dbs[k - 1], es[k - 1], id);
    }
  }

  // ----- at most once -----

  lemma AckStage(db: Db, e: Event)
    requires Enabled(db, e) && AckAccepted(db, e)
    ensures e.Ack? && e.id in db.jobs
    ensures db.jobs[e.id].status == Dispatched
    ensures e.id in Next(db, e).jobs && Next(db, e).jobs[e.id].status == Acknowledged
    ensures Owned(Next(db, e).jobs[e.id], e.device, e.tenant)
  {
    NextRow(db, e, e.id);
  }

  lemma ResultStage(db: Db, e: Event)
    requires Enabled(db, e) && ResultAccepted(db, e)
    ensures e.Result? && e.id in db.jobs
    ensures Stage(db.jobs[e.id].status) == 1
    ensures e.id in Next(db, e).jobs && IsTerminal(Next(db, e).jobs[e.id].status)
  {
    NextRow(db, e, e.id);
  }

  /** However often a job is dispatched, one acknowledgement at most succeeds. */
  lemma AcknowledgedAtMostOnce(dbs: seq<Db>, es: seq<Event>, i: nat, k: nat)
    requires IsRun(dbs, es) && i < |es| && k < |es|
    requires AckAccepted(dbs[i], es[i]) && AckAccepted(dbs[k], es[k]) && es[i].id == es[k].id
    ensures i == k
  {
    hide Next, Enabled, AckAccepted;
    var lo, hi := if i < k then i else k, if i < k then k else i;
    AckStage(dbs[lo], es[lo]);
    AckStage(dbs[hi], es[hi]);
    if lo < hi {
      RowPersists(dbs, es, lo + 1, hi, es[lo].id);
    }
  }

  /** One result at most is accepted. */
  lemma ResultAcceptedAtMostOnce(dbs: seq<Db>, es: seq<Event>, i: nat, k: nat)
    requires IsRun(dbs, es) && i < |es| && k < |es|
    requires ResultAccepted(dbs[i], es[i]) && ResultAccepted(dbs[k], es[k]) && es[i].id == es[k].id
    ensures i == k
  {
    hide Next, Enabled, ResultAccepted;
    var lo, hi := if i < k then i else k, if i < k then k else i;
    ResultStage(dbs[lo], es[lo]);
    ResultStage(dbs[hi], es[hi]);
    if lo < hi {
      RowPersists(dbs, es, lo + 1, hi, es[lo].id);
    }
  }

  lemma RowAcknowledged(e: Event, id: JobId, j: Job)
    requires RowOk(j) && RowAfter(e, id, j).status == Acknowledged
    ensures RowAfter(e, id, j) == j ||
            (e.Ack? && e.id == id && Owned(j, e.device, e.tenant) && j.status == Dispatched &&
             RowAfter(e, id, j).acknowledgedAt == Some(e.now))
  {
  }

  /** A job that stands acknowledged got there by an accepted acknowledgement, at the recorded time. */
  lemma {:induction false} AcknowledgedBefore(dbs: seq<Db>, es: seq<Event>, n: nat, id: JobId) returns (i: nat)
    requires IsRun(dbs, es) && n <= |es| && id in dbs[n].jobs && dbs[n].jobs[id].status == Acknowledged
    ensures i < n && AckAccepted(dbs[i], es[i]) && es[i].id == id
    ensures dbs[n].jobs[id].acknowledgedAt == Some(es[i].now)
  {
    hide Next, RowAfter, Enabled;
    var db, e := dbs[n - 1], es[n - 1];
    InvAlways(dbs, es, n - 1);
    if id !in db.jobs {
      NewRow(db, e, id);
    }
    NextRow(db, e, id);
    RowAcknowledged(e, id, db.jobs[id]);
    if dbs[n].jobs[id] == db.jobs[id] {
      i := AcknowledgedBefore(dbs, es, n - 1, id);
    } else {
      i := n - 1;
    }
  }

  /** A finished job stays finished; its only possible later status is `failed`, by a failed-update report. */
  lemma {:induction false} TerminalForever(dbs: seq<Db>, es: seq<Event>, i: nat, k: nat, id: JobId)
    requires IsRun(dbs, es) && i <= k <= |es|
    requires id in dbs[i].jobs && IsTerminal(dbs[i].jobs[id].status)
    ensures id in dbs[k].jobs && IsTerminal(dbs[k].jobs[id].status)
    ensures dbs[k].jobs[id].status != dbs[i].jobs[id].status ==>
              && dbs[k].jobs[id].status == Failed
              && exists m :: i <= m < k && es[m].FailReport? && es[m].id == id
  {
    hide Next, RowAfter, Enabled;
    if i < k {
      TerminalForever(dbs, es, i, k - 1, id);
      InvAlways(dbs, es, k - 1);
      RowStep(dbs[k - 1], es[k - 1], id);
      if es[k - 1].Dispatch? && id in es[k - 1].picked {
        PickedIsQueued(dbs[k - 1], es[k - 1], id);
      }
      RowAfterEvolves(es[k - 1], id, dbs[k - 1].jobs[id]);
    }
  }

  // ----- held jobs -----

  lemma RowHeld(e: Event, id: JobId, j: Job)
    requires j.status == CdmHold && !(e.Dispatch? && id in e.picked)
    ensures RowAfter(e, id, j) == j || IsTerminal(RowAfter(e, id, j).status) ||
            (e.Release? && Owned(j, e.device, e.tenant))
  {
  }

  /** A job held for CDM leaves that state only by a release for its device, or by ending. */
  lemma {:induction false} HeldUntilReleased(dbs: seq<Db>, es: seq<Event>, i: nat, k: nat, id: JobId)
    requires IsRun(dbs, es) && i <= k <= |es| && id in dbs[i].jobs && dbs[i].jobs[id].status == CdmHold
    ensures id in dbs[k].jobs
    ensures dbs[k].jobs[id].status == CdmHold || IsTerminal(dbs[k].jobs[id].status) ||
            exists m :: i <= m < k && es[m].Release? && Owned(dbs[i].jobs[id], es[m].device, es[m].tenant)
  {
    hide Next, RowAfter, Enabled;
    if i < k {
      HeldUntilReleased(dbs, es, i, k - 1, id);
      RowPersists(dbs, es, i, k - 1, id);
      InvAlways(dbs, es, k - 1);
      RowStep(dbs[k - 1], es[k - 1], id);
      if dbs[k - 1].jobs[id].status == CdmHold {
        if es[k - 1].Dispatch? && id in es[k - 1].picked {
          PickedIsQueued(dbs[k - 1], es[k - 1], id);
        }
        RowHeld(es[k - 1], id, dbs[k - 1].jobs[id]);
      }
    }
  }

  // ----- no stuck jobs -----

  /** The clock reading of an event, if the statement carries one. */
  function Clock(e: Event): Option<int> {
    match e
    case Insert(_, _, _, _, now) => Some(now)
    case FailReport(_, _, now) => Some(now)
    case Requeue(_, _, now) => Some(now)
    case Dispatch(_, _, _, _, now) => Some(now)
    case Ack(_, _, _, now) => Some(now)
    case Result(_, _, _, _, _, _, _, now) => Some(now)
    case Cancel(_, _, now) => Some(now)
    case Retry(_, _, _, now) => Some(now)
    case ReapDispatched(_, now) => Some(now)
    case ReapInflight(_, now) => Some(now)
    case _ => None
  }

  /** No event after `r` reads a clock earlier than `t`. */
  ghost predicate NotBefore(es: seq<Event>, r: nat, t: int) {
    forall m :: r <= m < |es| && Clock(es[m]).Some? ==> t <= Clock(es[m]).value
  }

  lemma RowDispatched(e: Event, id: JobId, j: Job)
    requires RowOk(j) && RowAfter(e, id, j).status == Dispatched
    ensures RowAfter(e, id, j) == j || (e.Dispatch? && RowAfter(e, id, j).dispatchedAt == Some(e.now))
    ensures e.ReapDispatched? ==> e.now - e.timeout <= j.dispatchedAt.value
  {
  }

  /**
  Once the reaper has run at time t, every dispatched job anywhere later in the
  run was dispatched no earlier than t - timeout: at time t' it has waited at
  most timeout + (t' - t).
  */
  lemma {:induction false} NoStuckDispatched(dbs: seq<Db>, es: seq<Event>, r: nat, n: nat, id: JobId)
    requires IsRun(dbs, es) && r < n <= |es|
    requires es[r].ReapDispatched? && es[r].timeout >= 0 && NotBefore(es, r, es[r].now)
    requires id in dbs[n].jobs && dbs[n].jobs[id].status == Dispatched
    ensures dbs[n].jobs[id].dispatchedAt.Some?
    ensures es[r].now - es[r].timeout <= dbs[n].jobs[id].dispatchedAt.value
  {
    hide Next, RowAfter, Enabled;
    var db, e := dbs[n - 1], es[n - 1];
    InvAlways(dbs, es, n - 1);
    if id !in db.jobs {
      NewRow(db, e, id);
    }
    NextRow(db, e, id);
    RowDispatched(e, id, db.jobs[id]);
    if e.Dispatch? {
      assert Clock(e) == Some(e.now);
    }
    if dbs[n].jobs[id] == db.jobs[id] && r < n - 1 {
      NoStuckDispatched(dbs, es, r, n - 1, id);
    }
  }

  lemma RowInflight(e: Event, id: JobId, j: Job)
    requires RowOk(j) && RowAfter(e, id, j).status == Acknowledged && e.ReapInflight?
    ensures e.now - e.timeout <= j.acknowledgedAt.value
  {
  }

  /** The same for acknowledged jobs and the in-flight reaper. */
  lemma {:induction false} NoStuckInflight(dbs: seq<Db>, es: seq<Event>, r: nat, n: nat, id: JobId)
    requires IsRun(dbs, es) && r < n <= |es|
    requires es[r].ReapInflight? && es[r].timeout >= 0 && NotBefore(es, r, es[r].now)
    requires id in dbs[n].jobs && Stage(dbs[n].jobs[id].status) == 1
    ensures dbs[n].jobs[id].acknowledgedAt.Some?
    ensures es[r].now - es[r].timeout <= dbs[n].jobs[id].acknowledgedAt.value
  {
    hide Next, RowAfter, Enabled;
    var db, e := dbs[n - 1], es[n - 1];
    InvAlways(dbs, es, n - 1);
    InvAlways(dbs, es, n);
    assert RowOk(dbs[n].jobs[id]);
    if id !in db.jobs {
      NewRow(db, e, id);
    }
    NextRow(db, e, id);
    RowAcknowledged(e, id, db.jobs[id]);
    if e.Ack? {
      assert Clock(e) == Some(e.now);
    }
    if e.ReapInflight? {
      RowInflight(e, id, db.jobs[id]);
    }
    if dbs[n].jobs[id] == db.jobs[id] && r < n - 1 {
      NoStuckInflight(dbs, es, r, n - 1, id);
    }
  }

  // ----- spacing of dispatches -----

  ghost predicate InOrder(es: seq<Event>) {
    forall i, k :: 0 <= i < k < |es| && Clock(es[i]).Some? && Clock(es[k]).Some? ==>
      Clock(es[i]).value <= Clock(es[k]).value
  }

  predicate Marks(e: Event, id: JobId) {
    e.Dispatch? && id in e.picked && id !in e.lost
  }

  /** No requeue statement takes a dispatch back before it is `d` old. */
  predicate Patient(e: Event, d: int) {
    d <= REQUEUE_AFTER && (e.ReapDispatched? ==> d <= e.timeout)
  }

  predicate After(e: Event, t: int) {
    Clock(e).Some? && t < Clock(e).value
  }

  lemma RowWaits(e: Event, id: JobId, j: Job, d: int)
    requires j.status == Dispatched && j.dispatchedAt.Some? && Patient(e, d) && !(e.Dispatch? && id in e.picked)
    ensures RowAfter(e, id, j) == j || Stage(RowAfter(e, id, j).status) > 0 || After(e, j.dispatchedAt.value + d)
  {
  }

  /** A dispatched row stays as it is, moves on, or outlives the delay. */
  lemma {:induction false} WaitsAtLeast(dbs: seq<Db>, es: seq<Event>, i: nat, n: nat, id: JobId, d: int)
    requires IsRun(dbs, es) && i < n <= |es| && Marks(es[i], id)
    requires forall m :: i <= m < n ==> Patient(es[m], d)
    ensures id in dbs[n].jobs
    ensures || (dbs[n].jobs[id].status == Dispatched && dbs[n].jobs[id].dispatchedAt == Some(es[i].now))
            || Stage(dbs[n].jobs[id].status) > 0
            || exists m :: i < m < n && After(es[m], es[i].now + d)
  {
    var db, e := dbs[n - 1], es[n - 1];
    if i == n - 1 {
      PickedIsQueued(db, e, id);
      NextRow(db, e, id);
    } else {
      WaitsAtLeast(dbs, es, i, n - 1, id, d);
      InvAlways(dbs, es, n - 1);
      RowStep(db, e, id);
      hide Next, RowAfter;
      if db.jobs[id].status == Dispatched && db.jobs[id].dispatchedAt == Some(es[i].now) {
        if e.Dispatch? && id in e.picked {
          PickedIsQueued(db, e, id);
        }
        RowWaits(e, id, db.jobs[id], d);
      }
    }
  }

  /** Two dispatches of one job lie more than the requeue delay apart. */
  lemma DispatchSpacing(dbs: seq<Db>, es: seq<Event>, i: nat, k: nat, id: JobId, d: int)
    requires IsRun(dbs, es) && InOrder(es) && i < k < |es| && Marks(es[i], id) && Marks(es[k], id)
    requires forall m :: i <= m < k ==> Patient(es[m], d)
    ensures es[k].now - es[i].now > d
  {
    hide Next, RowAfter, Enabled;
    WaitsAtLeast(dbs, es, i, k, id, d);
    PickedIsQueued(dbs[k], es[k], id);
    var m :| i < m < k && After(es[m], es[i].now + d);
    assert Clock(es[k]) == Some(es[k].now);
  }
}
