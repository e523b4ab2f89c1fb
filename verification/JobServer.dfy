/**
The server half of the job protocol: the `jobs` and `job_results` tables and
every statement that writes them.

A run is a sequence of events. Each SQL statement is one event of its own, so
events of different handlers interleave freely; a handler that reads a row and
then updates it by id (acknowledge, result, cancel, retry, fetch-and-mark) is
taken as one event. Failed statements are events with a fault flag or are
simply absent from the run.
*/
module JobServer {
  import opened Wrappers
  import opened JobStates

  type JobId = nat
  type DeviceId = nat
  type TenantId = nat

  const REQUEUE_AFTER := 60
  const FETCH_LIMIT := 10

  datatype Job = Job(
    tenant: TenantId, device: DeviceId, status: Status, createdAt: int,
    dispatchedAt: Option<int>, acknowledgedAt: Option<int>,
    startedAt: Option<int>, completedAt: Option<int>,
    parent: Option<JobId>, retryCount: int, maxRetries: int)

  /** `autoRetries` is a history of the automatic retries: (parent, child). */
  datatype Db = Db(jobs: map<JobId, Job>, results: seq<JobId>, autoRetries: seq<(JobId, JobId)>)

  const EMPTY := Db(map[], [], [])

  /** The status string of a submitted result; anything else is a 400. */
  datatype Report = ReportCompleted | ReportFailed | ReportTimedOut | ReportOther

  /** Where the result handler stops because a statement failed. */
  datatype ResultFault = NoFault | InsertFails | UpdateFails | RetryFails

  datatype Event =
    | Insert(id: JobId, tenant: TenantId, device: DeviceId, maxRetries: int, now: int)
    | FailReport(id: JobId, tenant: TenantId, now: int)
    | Requeue(device: DeviceId, tenant: TenantId, now: int)
    | Hold(device: DeviceId, tenant: TenantId)
    | Release(device: DeviceId, tenant: TenantId)
    | Dispatch(device: DeviceId, tenant: TenantId, picked: seq<JobId>, lost: set<JobId>, now: int)
    | Ack(id: JobId, device: DeviceId, tenant: TenantId, now: int)
    | Result(id: JobId, device: DeviceId, tenant: TenantId, report: Report, started: Option<int>,
             child: JobId, fault: ResultFault, now: int)
    | Cancel(id: JobId, tenant: TenantId, now: int)
    | Retry(id: JobId, tenant: TenantId, child: JobId, now: int)
    | Revoke(device: DeviceId, tenant: TenantId)
    | ReapDispatched(timeout: int, now: int)
    | ReapInflight(timeout: int, now: int)

  predicate Owned(j: Job, device: DeviceId, tenant: TenantId) {
    j.device == device && j.tenant == tenant
  }

  function TargetStatus(r: Report): Option<Status> {
    match r
    case ReportCompleted => Some(Completed)
    case ReportFailed => Some(Failed)
    case ReportTimedOut => Some(TimedOut)
    case ReportOther => None
  }

  /** The result handler treats an acknowledged job as running. */
  function Promote(s: Status): Status {
    if s == Acknowledged then Running else s
  }

  predicate OlderThan(t: Option<int>, cutoff: int) {
    t.Some? && t.value < cutoff
  }

  function Coalesce(a: Option<int>, b: Option<int>): Option<int> {
    if a.Some? then a else b
  }

  predicate AckAccepted(db: Db, e: Event) {
    e.Ack? && e.id in db.jobs && Owned(db.jobs[e.id], e.device, e.tenant) &&
    ValidateTransition(db.jobs[e.id].status, Acknowledged)
  }

  /** The request passes every check of the handler, before any write. */
  predicate ResultValid(db: Db, e: Event) {
    e.Result? && TargetStatus(e.report).Some? &&
    e.id in db.jobs && Owned(db.jobs[e.id], e.device, e.tenant) &&
    ValidateTransition(Promote(db.jobs[e.id].status), TargetStatus(e.report).value)
  }

  /** The job row takes the reported status. */
  predicate ResultAccepted(db: Db, e: Event) {
    ResultValid(db, e) && !e.fault.InsertFails? && !e.fault.UpdateFails?
  }

  predicate AutoRetried(db: Db, e: Event) {
    ResultAccepted(db, e) && !e.fault.RetryFails? &&
    ShouldRetry(TargetStatus(e.report).value, db.jobs[e.id].retryCount, db.jobs[e.id].maxRetries)
  }

  predicate RetryAccepted(db: Db, e: Event) {
    e.Retry? && e.id in db.jobs && db.jobs[e.id].tenant == e.tenant && IsRetryable(db.jobs[e.id].status)
  }

  /** What the event does to an existing row. */
  function RowAfter(e: Event, id: JobId, j: Job): Job {
    match e
    case FailReport(job, tenant, now) =>
      if id == job && j.tenant == tenant && j.status != Failed
      then j.(status := Failed, completedAt := Some(now)) else j
    case Requeue(device, tenant, now) =>
      if Owned(j, device, tenant) && j.status == Dispatched && OlderThan(j.dispatchedAt, now - REQUEUE_AFTER)
      then j.(status := Queued, dispatchedAt := None) else j
    case Hold(device, tenant) =>
      if Owned(j, device, tenant) && j.status == Queued then j.(status := CdmHold) else j
    case Release(device, tenant) =>
      if Owned(j, device, tenant) && j.status == CdmHold then j.(status := Queued) else j
    case Dispatch(_, _, picked, lost, now) =>
      if id in picked && id !in lost then j.(status := Dispatched, dispatchedAt := Some(now)) else j
    case Ack(job, device, tenant, now) =>
      if id == job && Owned(j, device, tenant) && ValidateTransition(j.status, Acknowledged)
      then j.(status := Acknowledged, acknowledgedAt := Some(now)) else j
    case Result(job, device, tenant, report, started, _, fault, now) =>
      if id == job && Owned(j, device, tenant) && TargetStatus(report).Some? &&
         ValidateTransition(Promote(j.status), TargetStatus(report).value) &&
         !fault.InsertFails? && !fault.UpdateFails?
      then j.(status := TargetStatus(report).value, completedAt := Some(now),
              startedAt := Coalesce(j.startedAt, started)) else j
    case Cancel(job, tenant, now) =>
      if id == job && j.tenant == tenant && IsCancellable(j.status)
      then j.(status := Cancelled, completedAt := Some(now)) else j
    case Revoke(device, tenant) =>
      if Owned(j, device, tenant) && j.status in {Pending, Queued, Dispatched}
      then j.(status := Cancelled) else j
    case ReapDispatched(timeout, now) =>
      if j.status == Dispatched && OlderThan(j.dispatchedAt, now - timeout)
      then j.(status := Queued, dispatchedAt := None) else j
    case ReapInflight(timeout, now) =>
      if j.status in {Acknowledged, Running} && OlderThan(Coalesce(j.startedAt, j.acknowledgedAt), now - timeout)
      then j.(status := TimedOut, completedAt := Some(now)) else j
    case _ => j
  }

  function FreshJob(tenant: TenantId, device: DeviceId, parent: Option<JobId>, retryCount: int, maxRetries: int,
                    now: int): Job {
    Job(tenant, device, Queued, now, None, None, None, None, parent, retryCount, maxRetries)
  }

  /** The row the event inserts, if any. */
  function Inserted(db: Db, e: Event): map<JobId, Job> {
    if e.Insert? then
      map[e.id := FreshJob(e.tenant, e.device, None, 0, e.maxRetries, e.now)]
    else if AutoRetried(db, e) then
      var p := db.jobs[e.id];
      map[e.child := FreshJob(e.tenant, e.device, Some(e.id), p.retryCount + 1, p.maxRetries, e.now)]
    else if RetryAccepted(db, e) then
      var p := db.jobs[e.id];
      map[e.child := FreshJob(e.tenant, p.device, Some(e.id), p.retryCount + 1, p.maxRetries, e.now)]
    else map[]
  }

  function RowsAfter(jobs: map<JobId, Job>, e: Event): map<JobId, Job> {
    map id | id in jobs :: RowAfter(e, id, jobs[id])
  }

  function Next(db: Db, e: Event): Db {
    Db(RowsAfter(db.jobs, e) + Inserted(db, e),
       if ResultValid(db, e) && !e.fault.InsertFails? then db.results + [e.id] else db.results,
       if AutoRetried(db, e) then db.autoRetries + [(e.id, e.child)] else db.autoRetries)
  }

  /** The rows one check-in may fetch. */
  predicate Fetchable(j: Job, device: DeviceId, tenant: TenantId) {
    Owned(j, device, tenant) && j.status == Queued
  }

  /** ORDER BY created_at ASC LIMIT 10 over the fetchable rows; ties in any order. */
  ghost predicate IsFetch(jobs: map<JobId, Job>, device: DeviceId, tenant: TenantId, picked: seq<JobId>) {
    && |picked| <= FETCH_LIMIT
    && (forall i :: 0 <= i < |picked| ==> picked[i] in jobs && Fetchable(jobs[picked[i]], device, tenant))
    && (forall i, k :: 0 <= i < k < |picked| ==>
          picked[i] != picked[k] && jobs[picked[i]].createdAt <= jobs[picked[k]].createdAt)
    && (forall id, i :: id in jobs && Fetchable(jobs[id], device, tenant) && id !in picked && 0 <= i < |picked| ==>
          jobs[picked[i]].createdAt <= jobs[id].createdAt)
    && (|picked| < FETCH_LIMIT ==> forall id :: id in jobs && Fetchable(jobs[id], device, tenant) ==> id in picked)
  }

  /** Generated ids are new; the fetched list is what the query returns. */
  ghost predicate Enabled(db: Db, e: Event) {
    && Inserted(db, e).Keys !! db.jobs.Keys
    && (e.Dispatch? ==> IsFetch(db.jobs, e.device, e.tenant, e.picked))
  }

  function NextAll(db: Db, es: seq<Event>): Db {
    if es == [] then db else Next(NextAll(db, es[..|es| - 1]), es[|es| - 1])
  }

  ghost predicate AllEnabled(db: Db, es: seq<Event>) {
    forall i :: 0 <= i < |es| ==> Enabled(NextAll(db, es[..i]), es[i])
  }

  lemma NoEvents(db: Db)
    ensures AllEnabled(db, []) && NextAll(db, []) == db
  {
  }

  lemma NextAllSnoc(db: Db, es: seq<Event>, e: Event)
    ensures NextAll(db, es + [e]) == Next(NextAll(db, es), e)
  {
    assert (es + [e])[..|es|] == es;
  }

  lemma AllEnabledSnoc(db: Db, es: seq<Event>, e: Event)
    requires AllEnabled(db, es) && Enabled(NextAll(db, es), e)
    ensures AllEnabled(db, es + [e])
    ensures NextAll(db, es + [e]) == Next(NextAll(db, es), e)
  {
    NextAllSnoc(db, es, e);
    forall i | 0 <= i < |es + [e]| ensures Enabled(NextAll(db, (es + [e])[..i]), (es + [e])[i]) {
      if i < |es| {
        assert (es + [e])[..i] == es[..i];
      } else {
        assert (es + [e])[..i] == es;
      }
    }
  }
}
