/**
What the statements of a check-in do to the job rows, and what the whole of it
leaves, in terms of the rows' own fields.
*/
module CheckinRows {
  import opened Wrappers
  import opened JobStates
  import opened JobServer

  /** Which statements of a check-in fail; `marks` are the jobs whose dispatch update fails. */
  datatype CheckinFaults = CheckinFaults(device: bool, report: bool, requeue: bool, hold: bool, release: bool,
                                         fetch: bool, marks: set<JobId>)

  /** Ten jobs, none of them created after job y. */
  predicate NoneYounger(jobs: map<JobId, Job>, picked: seq<JobId>, y: JobId)
    requires y in jobs && forall x :: x in picked ==> x in jobs
  {
    |picked| == 10 && forall x :: x in picked ==> jobs[x].createdAt <= jobs[y].createdAt
  }

  /** A fetch: at most ten queued jobs of the device, oldest first, and no older one left behind. */
  lemma FetchByFields(jobs: map<JobId, Job>, device: DeviceId, tenant: TenantId, picked: seq<JobId>)
    requires IsFetch(jobs, device, tenant, picked)
    ensures |picked| <= 10
    ensures forall x :: x in picked ==>
              x in jobs && jobs[x].device == device && jobs[x].tenant == tenant && jobs[x].status == Queued
    ensures forall i, k :: 0 <= i < k < |picked| ==>
              picked[i] != picked[k] && jobs[picked[i]].createdAt <= jobs[picked[k]].createdAt
    ensures forall y :: y in jobs && y !in picked && jobs[y].device == device && jobs[y].tenant == tenant ==>
              jobs[y].status != Queued || NoneYounger(jobs, picked, y)
  {
  }

  // ----- the statements -----


  ghost predicate FailedRow(jobs: map<JobId, Job>, jobs': map<JobId, Job>, id: JobId, tenant: TenantId, now: int) {
    && jobs'.Keys == jobs.Keys
    && (forall x :: x in jobs && x != id ==> jobs'[x] == jobs[x])
    && (id in jobs ==>
          jobs'[id] == if jobs[id].tenant == tenant && jobs[id].status != Failed
                       then jobs[id].(status := Failed, completedAt := Some(now)) else jobs[id])
  }

  ghost predicate RequeuedRows(jobs: map<JobId, Job>, jobs': map<JobId, Job>, device: DeviceId, tenant: TenantId,
                               now: int)
  {
    && jobs'.Keys == jobs.Keys
    && forall x :: x in jobs ==>
         var j := jobs[x];
         jobs'[x] == if j.device == device && j.tenant == tenant && j.status == Dispatched &&
                        j.dispatchedAt.Some? && j.dispatchedAt.value < now - 60
                     then j.(status := Queued, dispatchedAt := None) else j
  }

  ghost predicate HeldOrReleased(jobs: map<JobId, Job>, jobs': map<JobId, Job>, device: DeviceId, tenant: TenantId,
                                 held: bool, released: bool)
  {
    && jobs'.Keys == jobs.Keys
    && forall x :: x in jobs ==>
         var j := jobs[x];
         jobs'[x] == if held && j.device == device && j.tenant == tenant && j.status == Queued
                     then j.(status := CdmHold)
                     else if released && j.device == device && j.tenant == tenant && j.status == CdmHold
                     then j.(status := Queued)
                     else j
  }

  ghost predicate DispatchedRows(jobs: map<JobId, Job>, jobs': map<JobId, Job>, dispatched: seq<JobId>, now: int) {
    && jobs'.Keys == jobs.Keys
    && forall x :: x in jobs ==>
         jobs'[x] == if x in dispatched then jobs[x].(status := Dispatched, dispatchedAt := Some(now)) else jobs[x]
  }

  /** Jobs that a check-in of the device must not touch: those of others, unless its failed-update report names them. */
  ghost predicate OthersKept(jobs: map<JobId, Job>, jobs': map<JobId, Job>, device: DeviceId, tenant: TenantId,
                             failedUpdate: Option<JobId>)
  {
    && jobs'.Keys == jobs.Keys
    && forall x :: x in jobs && !(jobs[x].device == device && jobs[x].tenant == tenant) && failedUpdate != Some(x) ==>
         jobs'[x] == jobs[x]
  }

  /**
  What a check-in that answers leaves of a job of its device. Held: it is not
  queued. Otherwise it is queued only beyond ten fetched jobs or if it could not
  be marked. An active session leaves nothing held, and without CDM a held job
  stays as it is. No dispatch is older than a minute.
  */
  ghost predicate RowAnswered(j: Job, j': Job, now: int, cdmEnabled: bool, sessionActive: bool, reported: bool,
                              faults: CheckinFaults, passedOver: bool)
  {
    && (j'.status == Queued ==> !(cdmEnabled && !sessionActive) && passedOver)
    && (j'.status == CdmHold && cdmEnabled && sessionActive ==> faults.release)
    && (j.status == CdmHold && !cdmEnabled && !reported ==> j' == j)
    && (j'.status == Dispatched && j'.dispatchedAt.Some? && !faults.requeue ==> now - 60 <= j'.dispatchedAt.value)
    && (reported && !faults.report ==> j'.status == Failed)
  }

  /** The whole check-in: the replied jobs are the device's own and marked now; and every job of the device. */
  ghost predicate Answered(jobs: map<JobId, Job>, jobs': map<JobId, Job>, device: DeviceId, tenant: TenantId, now: int,
                           cdmEnabled: bool, sessionActive: bool, failedUpdate: Option<JobId>, faults: CheckinFaults,
                           reply: seq<JobId>, picked: seq<JobId>)
  {
    && jobs'.Keys == jobs.Keys
    && |picked| <= 10 && (cdmEnabled && !sessionActive ==> picked == [])
    && (forall x :: x in reply <==> x in picked && x !in faults.marks)
    && (forall x :: x in picked ==> x in jobs && jobs[x].device == device && jobs[x].tenant == tenant)
    && (forall x :: x in reply ==> jobs'[x].status == Dispatched && jobs'[x].dispatchedAt == Some(now))
    && (forall x :: x in jobs && jobs[x].device == device && jobs[x].tenant == tenant ==>
          RowAnswered(jobs[x], jobs'[x], now, cdmEnabled, sessionActive, failedUpdate == Some(x), faults,
                      x in faults.marks || |picked| == 10))
  }

  /** The stages of a check-in, as the statements leave the tables. */
  ghost predicate Stages(j0: map<JobId, Job>, j1: map<JobId, Job>, j2: map<JobId, Job>, j3: map<JobId, Job>,
                         device: DeviceId, tenant: TenantId, now: int, cdmEnabled: bool, sessionActive: bool,
                         failedUpdate: Option<JobId>, faults: CheckinFaults)
  {
    && (if failedUpdate.Some? && !faults.report then FailedRow(j0, j1, failedUpdate.value, tenant, now) else j1 == j0)
    && (if faults.requeue then j2 == j1 else RequeuedRows(j1, j2, device, tenant, now))
    && HeldOrReleased(j2, j3, device, tenant, cdmEnabled && !sessionActive && !faults.hold,
                      cdmEnabled && sessionActive && !faults.release)
  }

  /** One job through the stages before the fetch. */
  lemma StagedRow(j0: map<JobId, Job>, j1: map<JobId, Job>, j2: map<JobId, Job>, j3: map<JobId, Job>,
                  device: DeviceId, tenant: TenantId, now: int, cdmEnabled: bool, sessionActive: bool,
                  failedUpdate: Option<JobId>, faults: CheckinFaults, x: JobId)
    requires Stages(j0, j1, j2, j3, device, tenant, now, cdmEnabled, sessionActive, failedUpdate, faults)
    requires x in j0
    ensures x in j3 && j3[x].device == j0[x].device && j3[x].tenant == j0[x].tenant
    ensures j0[x].device == device && j0[x].tenant == tenant && !(cdmEnabled && !sessionActive && faults.hold) ==>
              RowAnswered(j0[x], j3[x], now, cdmEnabled, sessionActive, failedUpdate == Some(x), faults, true)
    ensures !(j0[x].device == device && j0[x].tenant == tenant) && failedUpdate != Some(x) ==> j3[x] == j0[x]
  {
  }

  /** One job through fetch and marking. */
  lemma MarkedRow(j0: Job, j3: Job, j4: Job, now: int, cdmEnabled: bool, sessionActive: bool, reported: bool,
                  faults: CheckinFaults, picked: bool, marked: bool, full: bool)
    requires RowAnswered(j0, j3, now, cdmEnabled, sessionActive, reported, faults, true)
    requires picked ==> j3.status == Queued
    requires j3.status == Queued ==> picked || full
    requires j4 == if picked && marked then j3.(status := Dispatched, dispatchedAt := Some(now)) else j3
    ensures RowAnswered(j0, j4, now, cdmEnabled, sessionActive, reported, faults, !marked || full)
  {
  }

  lemma FetchOf(jobs: map<JobId, Job>, device: DeviceId, tenant: TenantId, picked: seq<JobId>, x: JobId)
    requires IsFetch(jobs, device, tenant, picked) && x in jobs
    ensures |picked| <= 10
    ensures x in picked ==> jobs[x].device == device && jobs[x].tenant == tenant && jobs[x].status == Queued
    ensures x !in picked && jobs[x].device == device && jobs[x].tenant == tenant && jobs[x].status == Queued ==>
              |picked| == 10
  {
  }

  lemma AnsweredRow(j0: map<JobId, Job>, j1: map<JobId, Job>, j2: map<JobId, Job>, j3: map<JobId, Job>,
                    j4: map<JobId, Job>, device: DeviceId, tenant: TenantId, now: int, cdmEnabled: bool,
                    sessionActive: bool, failedUpdate: Option<JobId>, faults: CheckinFaults, reply: seq<JobId>,
                    picked: seq<JobId>, x: JobId)
    requires Stages(j0, j1, j2, j3, device, tenant, now, cdmEnabled, sessionActive, failedUpdate, faults)
    requires if cdmEnabled && !sessionActive then !faults.hold && picked == [] && reply == [] && j4 == j3
             else IsFetch(j3, device, tenant, picked) && DispatchedRows(j3, j4, reply, now)
    requires x in j0 && (x in reply <==> x in picked && x !in faults.marks)
    ensures x in j4 && (x in picked ==> j0[x].device == device && j0[x].tenant == tenant)
    ensures x in reply ==> j4[x].status == Dispatched && j4[x].dispatchedAt == Some(now)
    ensures j0[x].device == device && j0[x].tenant == tenant ==>
              RowAnswered(j0[x], j4[x], now, cdmEnabled, sessionActive, failedUpdate == Some(x), faults,
                          x in faults.marks || |picked| == 10)
    ensures !(j0[x].device == device && j0[x].tenant == tenant) && failedUpdate != Some(x) ==> j4[x] == j0[x]
  {
    StagedRow(j0, j1, j2, j3, device, tenant, now, cdmEnabled, sessionActive, failedUpdate, faults, x);
    if !(cdmEnabled && !sessionActive) {
      FetchOf(j3, device, tenant, picked, x);
      assert j4[x] == if x in reply then j3[x].(status := Dispatched, dispatchedAt := Some(now)) else j3[x];
    }
    hide Stages, IsFetch, DispatchedRows, RowAnswered;
    if j0[x].device == device && j0[x].tenant == tenant && !(cdmEnabled && !sessionActive) {
      MarkedRow(j0[x], j3[x], j4[x], now, cdmEnabled, sessionActive, failedUpdate == Some(x), faults,
                x in picked, x !in faults.marks, |picked| == 10);
    } else if j0[x].device == device && j0[x].tenant == tenant {
      NotQueued(j0[x], j4[x], now, cdmEnabled, sessionActive, failedUpdate == Some(x), faults,
                x in faults.marks || |picked| == 10);
    }
  }

  lemma NotQueued(j: Job, j': Job, now: int, cdmEnabled: bool, sessionActive: bool, reported: bool,
                  faults: CheckinFaults, passedOver: bool)
    requires cdmEnabled && !sessionActive
    requires RowAnswered(j, j', now, cdmEnabled, sessionActive, reported, faults, true)
    ensures RowAnswered(j, j', now, cdmEnabled, sessionActive, reported, faults, passedOver)
  {
  }

  lemma AnsweredByFields(j0: map<JobId, Job>, j1: map<JobId, Job>, j2: map<JobId, Job>, j3: map<JobId, Job>,
                         j4: map<JobId, Job>, device: DeviceId, tenant: TenantId, now: int, cdmEnabled: bool,
                         sessionActive: bool, failedUpdate: Option<JobId>, faults: CheckinFaults, reply: seq<JobId>,
                         picked: seq<JobId>)
    requires Stages(j0, j1, j2, j3, device, tenant, now, cdmEnabled, sessionActive, failedUpdate, faults)
    requires j4.Keys == j3.Keys == j0.Keys && |picked| <= 10
    requires if cdmEnabled && !sessionActive then !faults.hold && picked == [] && reply == [] && j4 == j3
             else IsFetch(j3, device, tenant, picked) && DispatchedRows(j3, j4, reply, now)
    requires forall x :: x in picked ==> x in j3
    requires forall x :: x in reply <==> x in picked && x !in faults.marks
    ensures Answered(j0, j4, device, tenant, now, cdmEnabled, sessionActive, failedUpdate, faults, reply, picked)
    ensures OthersKept(j0, j4, device, tenant, failedUpdate)
  {
    hide IsFetch, Stages, RowAnswered, DispatchedRows;
    forall x | x in j0
      ensures x in picked ==> j0[x].device == device && j0[x].tenant == tenant
      ensures x in reply ==> j4[x].status == Dispatched && j4[x].dispatchedAt == Some(now)
      ensures j0[x].device == device && j0[x].tenant == tenant ==>
                RowAnswered(j0[x], j4[x], now, cdmEnabled, sessionActive, failedUpdate == Some(x), faults,
                            x in faults.marks || |picked| == 10)
      ensures !(j0[x].device == device && j0[x].tenant == tenant) && failedUpdate != Some(x) ==> j4[x] == j0[x]
    {
      AnsweredRow(j0, j1, j2, j3, j4, device, tenant, now, cdmEnabled, sessionActive, failedUpdate, faults, reply,
                  picked, x);
    }
  }

  lemma OthersSame(jobs: map<JobId, Job>, device: DeviceId, tenant: TenantId, failedUpdate: Option<JobId>)
    ensures OthersKept(jobs, jobs, device, tenant, failedUpdate)
  {
  }

  lemma DispatchedKeys(jobs: map<JobId, Job>, jobs': map<JobId, Job>, dispatched: seq<JobId>, now: int)
    requires DispatchedRows(jobs, jobs', dispatched, now)
    ensures jobs'.Keys == jobs.Keys
  {
  }

  lemma FetchInTable(jobs: map<JobId, Job>, device: DeviceId, tenant: TenantId, picked: seq<JobId>)
    requires IsFetch(jobs, device, tenant, picked)
    ensures |picked| <= 10 && forall x :: x in picked ==> x in jobs
  {
  }

  lemma StagesPass(j0: map<JobId, Job>, j1: map<JobId, Job>, j2: map<JobId, Job>, j3: map<JobId, Job>,
                   device: DeviceId, tenant: TenantId, now: int, cdmEnabled: bool, sessionActive: bool,
                   failedUpdate: Option<JobId>, faults: CheckinFaults)
    requires if failedUpdate.Some? && !faults.report then FailedRow(j0, j1, failedUpdate.value, tenant, now)
             else j1 == j0
    requires if faults.requeue then j2 == j1 else RequeuedRows(j1, j2, device, tenant, now)
    requires HeldOrReleased(j2, j3, device, tenant, cdmEnabled && !sessionActive && !faults.hold,
                            cdmEnabled && sessionActive && !faults.release)
    ensures Stages(j0, j1, j2, j3, device, tenant, now, cdmEnabled, sessionActive, failedUpdate, faults)
    ensures j3.Keys == j0.Keys && OthersKept(j0, j3, device, tenant, failedUpdate)
  {
    forall x | x in j0 && !(j0[x].device == device && j0[x].tenant == tenant) && failedUpdate != Some(x)
      ensures j3[x] == j0[x]
    {
      StagedRow(j0, j1, j2, j3, device, tenant, now, cdmEnabled, sessionActive, failedUpdate, faults, x);
    }
  }
}
