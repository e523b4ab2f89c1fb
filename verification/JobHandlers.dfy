/**
The HTTP handlers and reapers that write the job tables, statement by statement.
A store records the events it has performed. Every method extends the record by
exactly its own events and keeps it a run in the sense of `JobRuns`, so calls in
any order, by any handlers, make runs and nothing else.
*/
module JobHandlers {
  import opened Wrappers
  import opened JobStates
  import opened JobServer
  import opened JobRuns
  import opened JobTraces
  import opened CheckinRows

  datatype Reply = NoContent | BadRequest | NotFound | Conflict | Forbidden | ServerError

  /** Which statement of a handler that reads and then writes fails. */
  datatype DbFault = Healthy | ReadFails | WriteFails

  function ReportPart(tenant: TenantId, now: int, failedUpdate: Option<JobId>, faults: CheckinFaults): seq<Event> {
    if failedUpdate.Some? && !faults.report then [FailReport(failedUpdate.value, tenant, now)] else []
  }

  function RequeuePart(device: DeviceId, tenant: TenantId, now: int, faults: CheckinFaults): seq<Event> {
    if faults.requeue then [] else [Requeue(device, tenant, now)]
  }

  /** Hold, release or neither. */
  function CdmPart(device: DeviceId, tenant: TenantId, cdmEnabled: bool, sessionActive: bool,
                   faults: CheckinFaults): seq<Event>
  {
    if cdmEnabled && !sessionActive then (if faults.hold then [] else [Hold(device, tenant)])
    else if cdmEnabled && !faults.release then [Release(device, tenant)]
    else []
  }

  function DispatchPart(device: DeviceId, tenant: TenantId, now: int, held: bool, faults: CheckinFaults,
                        picked: seq<JobId>): seq<Event>
  {
    if held || faults.fetch then [] else [Dispatch(device, tenant, picked, faults.marks, now)]
  }

  /** The statements a check-in performs, in order; nothing if the device row cannot be updated. */
  function CheckinScript(device: DeviceId, tenant: TenantId, now: int, cdmEnabled: bool, sessionActive: bool,
                         failedUpdate: Option<JobId>, faults: CheckinFaults, picked: seq<JobId>): seq<Event>
  {
    if faults.device then []
    else
      ReportPart(tenant, now, failedUpdate, faults) + RequeuePart(device, tenant, now, faults)
      + CdmPart(device, tenant, cdmEnabled, sessionActive, faults)
      + DispatchPart(device, tenant, now, cdmEnabled && !sessionActive, faults, picked)
  }

  lemma Regroup(t: seq<Event>, a: seq<Event>, b: seq<Event>, c: seq<Event>, d: seq<Event>)
    ensures t + a + b + c + d == t + (a + b + c + d)
  {
  }

  function Without(s: seq<JobId>, lost: set<JobId>): seq<JobId> {
    if s == [] then []
    else if s[|s| - 1] in lost then Without(s[..|s| - 1], lost)
    else Without(s[..|s| - 1], lost) + [s[|s| - 1]]
  }

  lemma {:induction false} WithoutElements(s: seq<JobId>, lost: set<JobId>, x: JobId)
    ensures x in Without(s, lost) <==> x in s && x !in lost
  {
    if s != [] {
      WithoutElements(s[..|s| - 1], lost, x);
      assert x in s <==> x in s[..|s| - 1] || x == s[|s| - 1];
    }
  }

  lemma OldestExists(jobs: map<JobId, Job>, s: set<JobId>) returns (id: JobId)
    requires s != {} && s <= jobs.Keys
    ensures id in s && forall other :: other in s ==> jobs[id].createdAt <= jobs[other].createdAt
  {
    id :| id in s;
    var rest := s - {id};
    if rest == {} {
      assert s == {id};
    } else {
      var best := OldestExists(jobs, rest);
      if jobs[best].createdAt < jobs[id].createdAt {
        id := best;
      }
    }
  }

  /** The rows after the dispatch updates of the fetched jobs. */
  function Marked(jobs: map<JobId, Job>, picked: seq<JobId>, lost: set<JobId>, now: int): map<JobId, Job> {
    map id | id in jobs ::
      if id in picked && id !in lost then jobs[id].(status := Dispatched, dispatchedAt := Some(now)) else jobs[id]
  }

  lemma MarkedNone(jobs: map<JobId, Job>, lost: set<JobId>, now: int)
    ensures Marked(jobs, [], lost, now) == jobs
  {
  }

  lemma MarkedRows(jobs: map<JobId, Job>, picked: seq<JobId>, lost: set<JobId>, now: int)
    ensures var jobs' := Marked(jobs, picked, lost, now);
            && jobs'.Keys == jobs.Keys
            && forall x :: x in jobs ==>
                 jobs'[x] == if x in picked && x !in lost
                             then jobs[x].(status := Dispatched, dispatchedAt := Some(now)) else jobs[x]
  {
  }

  lemma MarkedSnoc(jobs: map<JobId, Job>, picked: seq<JobId>, id: JobId, lost: set<JobId>, now: int)
    requires id in jobs && id !in picked
    ensures id in Marked(jobs, picked, lost, now)
    ensures Marked(jobs, picked + [id], lost, now) ==
            if id in lost then Marked(jobs, picked, lost, now)
            else Marked(jobs, picked, lost, now)
                 [id := Marked(jobs, picked, lost, now)[id].(status := Dispatched, dispatchedAt := Some(now))]
  {
  }

  lemma FetchNext(jobs: map<JobId, Job>, device: DeviceId, tenant: TenantId, picked: seq<JobId>, i: nat)
    requires IsFetch(jobs, device, tenant, picked) && i < |picked|
    ensures picked[i] in jobs && picked[i] !in picked[..i]
  {
  }

  lemma DispatchMarks(db: Db, device: DeviceId, tenant: TenantId, picked: seq<JobId>, lost: set<JobId>, now: int)
    ensures Next(db, Dispatch(device, tenant, picked, lost, now)) ==
            Db(Marked(db.jobs, picked, lost, now), db.results, db.autoRetries)
  {
    assert Marked(db.jobs, picked, lost, now) == RowsAfter(db.jobs, Dispatch(device, tenant, picked, lost, now));
  }

  /** Events that insert nothing only rewrite rows, and only a fetch has a condition. */
  lemma RowsOnly(db: Db, e: Event)
    requires !e.Insert? && !e.Result? && !e.Retry?
    requires e.Dispatch? ==> IsFetch(db.jobs, e.device, e.tenant, e.picked)
    ensures Enabled(db, e) && Next(db, e) == db.(jobs := RowsAfter(db.jobs, e))
  {
  }

  /** The first n inserts of a job creation. */
  function InsertScript(tenant: TenantId, devices: seq<DeviceId>, ids: seq<JobId>, maxRetries: int, now: int, n: nat)
    : seq<Event>
    requires n <= |ids| == |devices|
  {
    if n == 0 then []
    else InsertScript(tenant, devices, ids, maxRetries, now, n - 1)
         + [Insert(ids[n - 1], tenant, devices[n - 1], maxRetries, now)]
  }

  lemma InsertNone(t: seq<Event>, tenant: TenantId, devices: seq<DeviceId>, ids: seq<JobId>, maxRetries: int, now: int)
    requires |ids| == |devices|
    ensures t + InsertScript(tenant, devices, ids, maxRetries, now, 0) == t
  {
  }

  lemma InsertNext(t: seq<Event>, tenant: TenantId, devices: seq<DeviceId>, ids: seq<JobId>, maxRetries: int, now: int,
                   n: nat)
    requires n < |ids| == |devices|
    ensures t + InsertScript(tenant, devices, ids, maxRetries, now, n + 1) ==
            t + InsertScript(tenant, devices, ids, maxRetries, now, n)
            + [Insert(ids[n], tenant, devices[n], maxRetries, now)]
  {
  }

  /** The ids from position n on are new and differ from each other. */
  ghost predicate FreshIds(ids: seq<JobId>, n: nat, used: set<JobId>) {
    && (forall i :: n <= i < |ids| ==> ids[i] !in used)
    && (forall i, k :: n <= i < k < |ids| ==> ids[i] != ids[k])
  }

  lemma FreshIdsNext(ids: seq<JobId>, n: nat, used: set<JobId>)
    requires FreshIds(ids, n, used) && n < |ids|
    ensures ids[n] !in used && FreshIds(ids, n + 1, used + {ids[n]})
  {
  }

  /** The first n jobs of a creation are fresh queued rows, one per device; what was there stays. */
  ghost predicate CreatedRows(jobs: map<JobId, Job>, jobs': map<JobId, Job>, tenant: TenantId, devices: seq<DeviceId>,
                              ids: seq<JobId>, maxRetries: int, now: int, n: nat)
    requires n <= |ids| == |devices|
  {
    && (forall x :: x in jobs' <==> x in jobs || x in ids[..n])
    && (forall x :: x in jobs ==> jobs'[x] == jobs[x])
    && forall i :: 0 <= i < n ==>
         && ids[i] in jobs'
         && jobs'[ids[i]] == Job(tenant, devices[i], Queued, now, None, None, None, None, None, 0, maxRetries)
  }

  lemma CreatedNone(jobs: map<JobId, Job>, tenant: TenantId, devices: seq<DeviceId>, ids: seq<JobId>, maxRetries: int,
                    now: int)
    requires |ids| == |devices|
    ensures CreatedRows(jobs, jobs, tenant, devices, ids, maxRetries, now, 0)
  {
  }

  lemma CreatedNext(jobs: map<JobId, Job>, jobs': map<JobId, Job>, tenant: TenantId, devices: seq<DeviceId>,
                    ids: seq<JobId>, maxRetries: int, now: int, n: nat)
    requires n < |ids| == |devices| && ids[n] !in jobs'
    requires CreatedRows(jobs, jobs', tenant, devices, ids, maxRetries, now, n)
    ensures var row := Job(tenant, devices[n], Queued, now, None, None, None, None, None, 0, maxRetries);
            CreatedRows(jobs, jobs'[ids[n] := row], tenant, devices, ids, maxRetries, now, n + 1)
  {
    assert ids[..n + 1] == ids[..n] + [ids[n]];
  }

  lemma InsertEffect(db: Db, e: Event)
    requires e.Insert? && e.id !in db.jobs
    ensures Enabled(db, e)
    ensures Next(db, e) == db.(jobs := db.jobs[e.id := FreshJob(e.tenant, e.device, None, 0, e.maxRetries, e.now)])
  {
    assert RowsAfter(db.jobs, e) == db.jobs;
  }

  /** A result that does not reach the job row leaves at most its own row in job_results. */
  lemma ResultIgnored(db: Db, e: Event)
    requires e.Result? && !ResultAccepted(db, e)
    ensures Enabled(db, e)
    ensures Next(db, e) ==
            if ResultValid(db, e) && !e.fault.InsertFails? then db.(results := db.results + [e.id]) else db
  {
    assert RowsAfter(db.jobs, e) == db.jobs;
  }

  lemma ResultWritten(db: Db, e: Event)
    requires ResultAccepted(db, e) && e.child !in db.jobs
    ensures Enabled(db, e)
    ensures var p := db.jobs[e.id];
            var child := FreshJob(e.tenant, e.device, Some(e.id), p.retryCount + 1, p.maxRetries, e.now);
            var p' := p.(status := TargetStatus(e.report).value, completedAt := Some(e.now),
                         startedAt := Coalesce(p.startedAt, e.started));
            Next(db, e) ==
            if AutoRetried(db, e) then
              Db(db.jobs[e.id := p'][e.child := child],
                 db.results + [e.id], db.autoRetries + [(e.id, e.child)])
            else Db(db.jobs[e.id := p'], db.results + [e.id], db.autoRetries)
  {
    assert RowsAfter(db.jobs, e) == db.jobs[e.id := RowAfter(e, e.id, db.jobs[e.id])];
  }

  /** What a result request does, field by field: when it is accepted, the job's row, the retry, and the rest. */
  ghost predicate ResultByFields(jobs: map<JobId, Job>, jobs': map<JobId, Job>, accepted: bool, e: Event)
    requires e.Result?
  {
    && (accepted <==>
          && !e.report.ReportOther? && !e.fault.InsertFails? && !e.fault.UpdateFails?
          && e.id in jobs && jobs[e.id].device == e.device && jobs[e.id].tenant == e.tenant
          && (jobs[e.id].status == Acknowledged || jobs[e.id].status == Running))
    && (!accepted ==> jobs' == jobs)
    && (accepted ==>
          var j := jobs[e.id];
          var status := match e.report
                        case ReportCompleted => Completed
                        case ReportFailed => Failed
                        case ReportTimedOut => TimedOut
                        case ReportOther => j.status;
          var retried := (e.report.ReportFailed? || e.report.ReportTimedOut?) && !e.fault.RetryFails? &&
                         j.retryCount < j.maxRetries;
          && jobs'.Keys == jobs.Keys + (if retried then {e.child} else {})
          && jobs'[e.id] == j.(status := status, completedAt := Some(e.now),
                               startedAt := if j.startedAt.Some? then j.startedAt else e.started)
          && (retried ==> jobs'[e.child] == Job(e.tenant, e.device, Queued, e.now, None, None, None, None, Some(e.id),
                                                j.retryCount + 1, j.maxRetries))
          && forall x :: x in jobs && x != e.id ==> jobs'[x] == jobs[x])
  }

  lemma ResultFields(db: Db, e: Event)
    requires e.Result? && e.child !in db.jobs
    ensures ResultByFields(db.jobs, Next(db, e).jobs, ResultAccepted(db, e), e)
  {
    hide Next, Enabled;
    if ResultAccepted(db, e) {
      ResultWritten(db, e);
    } else {
      ResultIgnored(db, e);
    }
  }

  class JobStore {
    var jobs: map<JobId, Job>
    var results: seq<JobId>
    var autoRetries: seq<(JobId, JobId)>
    ghost var trace: seq<Event>

    constructor ()
      ensures Valid() && State() == EMPTY && trace == []
    {
      jobs, results, autoRetries, trace := map[], [], [], [];
    }

    function State(): Db
      reads this
    {
      Db(jobs, results, autoRetries)
    }

    /** The tables are what the recorded events lead to, each of them enabled when it happened. */
    ghost predicate Valid()
      reads this
    {
      AllEnabled(EMPTY, trace) && State() == NextAll(EMPTY, trace)
    }

    /** Adds the event that led from `before` to the present tables. */
    ghost method Record(before: Db, e: Event)
      requires AllEnabled(EMPTY, trace) && before == NextAll(EMPTY, trace)
      requires Enabled(before, e) && State() == Next(before, e)
      modifies this`trace
      ensures Valid() && trace == old(trace) + [e]
    {
      hide NextAll, AllEnabled, Next, Enabled;
      AllEnabledSnoc(EMPTY, trace, e);
      trace := trace + [e];
    }

    // ----- check-in -----

    method FailReported(id: JobId, tenant: TenantId, now: int)
      requires Valid()
      modifies this
      ensures Valid() && trace == old(trace) + [FailReport(id, tenant, now)]
      ensures State() == Next(old(State()), FailReport(id, tenant, now))
      ensures FailedRow(old(jobs), jobs, id, tenant, now)
    {
      hide NextAll, AllEnabled;
      ghost var before, e := State(), FailReport(id, tenant, now);
      RowsOnly(before, e);
      if id in jobs && jobs[id].tenant == tenant && jobs[id].status != Failed {
        jobs := jobs[id := jobs[id].(status := Failed, completedAt := Some(now))];
      }
      assert jobs == RowsAfter(before.jobs, e);
      hide Next, Enabled;
      Record(before, e);
    }

    method RequeueMissed(device: DeviceId, tenant: TenantId, now: int)
      requires Valid()
      modifies this
      ensures Valid() && trace == old(trace) + [Requeue(device, tenant, now)]
      ensures State() == Next(old(State()), Requeue(device, tenant, now))
      ensures RequeuedRows(old(jobs), jobs, device, tenant, now)
    {
      hide NextAll, AllEnabled;
      ghost var before, e := State(), Requeue(device, tenant, now);
      RowsOnly(before, e);
      jobs := map id | id in jobs ::
        if Owned(jobs[id], device, tenant) && jobs[id].status == Dispatched &&
           OlderThan(jobs[id].dispatchedAt, now - REQUEUE_AFTER)
        then jobs[id].(status := Queued, dispatchedAt := None) else jobs[id];
      assert jobs == RowsAfter(before.jobs, e);
      hide Next, Enabled;
      Record(before, e);
    }

    method HoldQueued(device: DeviceId, tenant: TenantId)
      requires Valid()
      modifies this
      ensures Valid() && trace == old(trace) + [Hold(device, tenant)]
      ensures State() == Next(old(State()), Hold(device, tenant))
      ensures jobs.Keys == old(jobs).Keys
      ensures forall x :: x in jobs ==> var j := old(jobs)[x];
                jobs[x] == if j.device == device && j.tenant == tenant && j.status == Queued
                           then j.(status := CdmHold) else j
    {
      hide NextAll, AllEnabled;
      ghost var before, e := State(), Hold(device, tenant);
      RowsOnly(before, e);
      jobs := map id | id in jobs ::
        if Fetchable(jobs[id], device, tenant) then jobs[id].(status := CdmHold) else jobs[id];
      assert jobs == RowsAfter(before.jobs, e);
      hide Next, Enabled;
      Record(before, e);
    }

    method ReleaseHeld(device: DeviceId, tenant: TenantId)
      requires Valid()
      modifies this
      ensures Valid() && trace == old(trace) + [Release(device, tenant)]
      ensures State() == Next(old(State()), Release(device, tenant))
      ensures jobs.Keys == old(jobs).Keys
      ensures forall x :: x in jobs ==> var j := old(jobs)[x];
                jobs[x] == if j.device == device && j.tenant == tenant && j.status == CdmHold
                           then j.(status := Queued) else j
    {
      hide NextAll, AllEnabled;
      ghost var before, e := State(), Release(device, tenant);
      RowsOnly(before, e);
      jobs := map id | id in jobs ::
        if Owned(jobs[id], device, tenant) && jobs[id].status == CdmHold
        then jobs[id].(status := Queued) else jobs[id];
      assert jobs == RowsAfter(before.jobs, e);
      hide Next, Enabled;
      Record(before, e);
    }

    /** The fetch query: the ten oldest queued jobs of the device. */
    method FetchQueued(device: DeviceId, tenant: TenantId) returns (picked: seq<JobId>)
      ensures IsFetch(jobs, device, tenant, picked)
      ensures |picked| <= 10
      ensures forall x :: x in picked ==>
                x in jobs && jobs[x].device == device && jobs[x].tenant == tenant && jobs[x].status == Queued
      ensures forall i, k :: 0 <= i < k < |picked| ==>
                picked[i] != picked[k] && jobs[picked[i]].createdAt <= jobs[picked[k]].createdAt
      ensures forall y :: y in jobs && y !in picked && jobs[y].device == device && jobs[y].tenant == tenant ==>
                jobs[y].status != Queued || NoneYounger(jobs, picked, y)
    {
      picked := [];
      var rest := set id | id in jobs && Fetchable(jobs[id], device, tenant);
      while |picked| < FETCH_LIMIT && rest != {}
        invariant |picked| <= FETCH_LIMIT
        invariant forall id :: id in rest <==> id in jobs && Fetchable(jobs[id], device, tenant) && id !in picked
        invariant forall i :: 0 <= i < |picked| ==> picked[i] in jobs && Fetchable(jobs[picked[i]], device, tenant)
        invariant forall i, k :: 0 <= i < k < |picked| ==>
          picked[i] != picked[k] && jobs[picked[i]].createdAt <= jobs[picked[k]].createdAt
        invariant forall id, i :: id in rest && 0 <= i < |picked| ==> jobs[picked[i]].createdAt <= jobs[id].createdAt
        decreases FETCH_LIMIT - |picked|
      {
        var _ := OldestExists(jobs, rest);
        var id :| id in rest && forall other :: other in rest ==> jobs[id].createdAt <= jobs[other].createdAt;
        picked := picked + [id];
        rest := rest - {id};
      }
      FetchByFields(jobs, device, tenant, picked);
    }

    /** The marking loop: one update per fetched job; a failed update drops the job from the reply. */
    method MarkEach(device: DeviceId, tenant: TenantId, picked: seq<JobId>, lost: set<JobId>, now: int)
      returns (dispatched: seq<JobId>)
      requires IsFetch(jobs, device, tenant, picked)
      modifies `jobs
      ensures jobs == Marked(old(jobs), picked, lost, now)
      ensures dispatched == Without(picked, lost)
    {
      MarkedNone(jobs, lost, now);
      hide Marked, IsFetch;
      dispatched := [];
      for i := 0 to |picked|
        invariant i == 0 ==> picked[..i] == []
        invariant jobs == Marked(old(jobs), picked[..i], lost, now)
        invariant dispatched == Without(picked[..i], lost)
      {
        var id := picked[i];
        assert picked[..i + 1] == picked[..i] + [id];
        FetchNext(old(jobs), device, tenant, picked, i);
        MarkedSnoc(old(jobs), picked[..i], id, lost, now);
        if id !in lost {
          jobs := jobs[id := jobs[id].(status := Dispatched, dispatchedAt := Some(now))];
          dispatched := dispatched + [id];
        }
      }
      assert picked[..|picked|] == picked;
    }

    method MarkDispatched(device: DeviceId, tenant: TenantId, picked: seq<JobId>, lost: set<JobId>, now: int)
      returns (dispatched: seq<JobId>)
      requires Valid() && IsFetch(jobs, device, tenant, picked)
      modifies this
      ensures Valid() && trace == old(trace) + [Dispatch(device, tenant, picked, lost, now)]
      ensures State() == Next(old(State()), Dispatch(device, tenant, picked, lost, now))
      ensures dispatched == Without(picked, lost)
      ensures forall x :: x in dispatched <==> x in picked && x !in lost
      ensures DispatchedRows(old(jobs), jobs, dispatched, now)
    {
      hide NextAll, AllEnabled, IsFetch;
      ghost var before, e := State(), Dispatch(device, tenant, picked, lost, now);
      DispatchMarks(before, device, tenant, picked, lost, now);
      RowsOnly(before, e);
      hide Next, Marked, Enabled;
      forall x ensures x in Without(picked, lost) <==> x in picked && x !in lost {
        WithoutElements(picked, lost, x);
      }
      MarkedRows(jobs, picked, lost, now);
      hide Without;
      dispatched := MarkEach(device, tenant, picked, lost, now);
      Record(before, e);
    }

    /** fetchDispatchableJobs: hold everything, or release what is held and fetch; None is an error. */
    method FetchDispatchableJobs(device: DeviceId, tenant: TenantId, cdmEnabled: bool, sessionActive: bool,
                                 faults: CheckinFaults) returns (picked: Option<seq<JobId>>)
      requires Valid()
      modifies this
      ensures Valid() && trace == old(trace) + CdmPart(device, tenant, cdmEnabled, sessionActive, faults)
      ensures picked.None? <==> if cdmEnabled && !sessionActive then faults.hold else faults.fetch
      ensures picked.Some? && cdmEnabled && !sessionActive ==> picked.value == []
      ensures picked.Some? && !(cdmEnabled && !sessionActive) ==> IsFetch(jobs, device, tenant, picked.value)
      ensures HeldOrReleased(old(jobs), jobs, device, tenant, cdmEnabled && !sessionActive && !faults.hold,
                             cdmEnabled && sessionActive && !faults.release)
    {
      hide Next, NextAll, AllEnabled, IsFetch;
      if cdmEnabled && !sessionActive {
        if faults.hold {
          return None;
        }
        HoldQueued(device, tenant);
        return Some([]);
      }
      if cdmEnabled && !faults.release {
        ReleaseHeld(device, tenant);
      }
      if faults.fetch {
        return None;
      }
      var fetched := FetchQueued(device, tenant);
      return Some(fetched);
    }

    /** POST /v1/agents/checkin; the reply is None when the handler answers 500. */
    method Checkin(device: DeviceId, tenant: TenantId, now: int, cdmEnabled: bool, sessionActive: bool,
                   failedUpdate: Option<JobId>, faults: CheckinFaults)
      returns (reply: Option<seq<JobId>>, picked: seq<JobId>)
      requires Valid()
      modifies this
      ensures Valid()
      ensures trace == old(trace) +
                CheckinScript(device, tenant, now, cdmEnabled, sessionActive, failedUpdate, faults, picked)
      ensures reply == if faults.device then None
                       else if (if cdmEnabled && !sessionActive then faults.hold else faults.fetch) then None
                       else if cdmEnabled && !sessionActive then Some([])
                       else Some(Without(picked, faults.marks))
      ensures OthersKept(old(jobs), jobs, device, tenant, failedUpdate)
      ensures reply.Some? ==> Answered(old(jobs), jobs, device, tenant, now, cdmEnabled, sessionActive, failedUpdate,
                                       faults, reply.value, picked)
    {
      hide Next, IsFetch, NextAll, AllEnabled, CdmPart, Without, Answered, OthersKept, FailedRow, RequeuedRows,
        HeldOrReleased, DispatchedRows, Stages;
      picked := [];
      OthersSame(jobs, device, tenant, failedUpdate);
      if faults.device {
        return None, picked;
      }
      if failedUpdate.Some? && !faults.report {
        FailReported(failedUpdate.value, tenant, now);
      }
      ghost var reported, requeued := ReportPart(tenant, now, failedUpdate, faults),
                                      RequeuePart(device, tenant, now, faults);
      assert trace == old(trace) + reported;
      ghost var j1 := jobs;
      if !faults.requeue {
        RequeueMissed(device, tenant, now);
      }
      assert trace == old(trace) + reported + requeued;
      hide ReportPart, RequeuePart;
      ghost var j2 := jobs;
      var fetched := FetchDispatchableJobs(device, tenant, cdmEnabled, sessionActive, faults);
      ghost var j3 := jobs;
      StagesPass(old(jobs), j1, j2, j3, device, tenant, now, cdmEnabled, sessionActive, failedUpdate, faults);
      if fetched.None? {
        reply := None;
      } else if cdmEnabled && !sessionActive {
        reply := Some([]);
        AnsweredByFields(old(jobs), j1, j2, j3, jobs, device, tenant, now, cdmEnabled, sessionActive, failedUpdate,
                         faults, [], []);
      } else {
        picked := fetched.value;
        FetchInTable(jobs, device, tenant, picked);
        var dispatched := MarkDispatched(device, tenant, picked, faults.marks, now);
        reply := Some(dispatched);
        DispatchedKeys(j3, jobs, dispatched, now);
        AnsweredByFields(old(jobs), j1, j2, j3, jobs, device, tenant, now, cdmEnabled, sessionActive, failedUpdate,
                         faults, dispatched, picked);
      }
      Regroup(old(trace), reported, requeued, CdmPart(device, tenant, cdmEnabled, sessionActive, faults),
              DispatchPart(device, tenant, now, cdmEnabled && !sessionActive, faults, picked));
    }

    // ----- agent -----

    /** POST /v1/agents/jobs/{id}/acknowledge; a job acknowledged before is never acknowledged again. */
    method Acknowledge(id: JobId, device: DeviceId, tenant: TenantId, fault: DbFault, now: int)
      returns (reply: Reply)
      requires Valid()
      modifies this
      ensures Valid()
      ensures reply == ServerError ==> State() == old(State()) && trace == old(trace)
      ensures reply != ServerError ==>
                && State() == Next(old(State()), Ack(id, device, tenant, now))
                && trace == old(trace) + [Ack(id, device, tenant, now)]
      ensures reply == NoContent <==> fault.Healthy? && AckAccepted(old(State()), Ack(id, device, tenant, now))
      ensures reply == NoContent <==>
                && fault.Healthy? && id in old(jobs) && old(jobs)[id].device == device
                && old(jobs)[id].tenant == tenant && old(jobs)[id].status == Dispatched
      ensures jobs == if reply == NoContent
                      then old(jobs)[id := old(jobs)[id].(status := Acknowledged, acknowledgedAt := Some(now))]
                      else old(jobs)
      ensures reply == NotFound <==> !fault.ReadFails? && !(id in old(jobs) && Owned(old(jobs)[id], device, tenant))
      ensures reply == ServerError <==>
                fault.ReadFails? || (fault.WriteFails? && AckAccepted(old(State()), Ack(id, device, tenant, now)))
      ensures reply in {NoContent, NotFound, Conflict, ServerError}
      ensures reply == NoContent ==> !WasAcknowledged(old(trace), id)
    {
      hide NextAll, AllEnabled;
      if fault.ReadFails? {
        return ServerError;
      }
      ghost var before, e := State(), Ack(id, device, tenant, now);
      RowsOnly(before, e);
      if AckAccepted(before, e) {
        FirstAcknowledgement(trace, e);
        AckRow(before, e);
      } else {
        AckRefused(before, e);
      }
      hide Next, Enabled, WasAcknowledged;
      if id !in jobs || !Owned(jobs[id], device, tenant) {
        Record(before, e);
        return NotFound;
      }
      if !ValidateTransition(jobs[id].status, Acknowledged) {
        Record(before, e);
        return Conflict;
      }
      if fault.WriteFails? {
        return ServerError;
      }
      jobs := jobs[id := jobs[id].(status := Acknowledged, acknowledgedAt := Some(now))];
      Record(before, e);
      return NoContent;
    }

    /** POST /v1/agents/jobs/{id}/result; `child` is the id a retry would get. */
    method SubmitResult(id: JobId, device: DeviceId, tenant: TenantId, report: Report, started: Option<int>,
                        child: JobId, readFails: bool, fault: ResultFault, now: int) returns (reply: Reply)
      requires Valid() && child !in jobs
      modifies this
      ensures Valid()
      ensures readFails && !report.ReportOther? ==> State() == old(State()) && trace == old(trace)
      ensures !(readFails && !report.ReportOther?) ==>
                && State() == Next(old(State()), Result(id, device, tenant, report, started, child, fault, now))
                && trace == old(trace) + [Result(id, device, tenant, report, started, child, fault, now)]
      ensures reply == NoContent <==>
                !readFails &&
                ResultAccepted(old(State()), Result(id, device, tenant, report, started, child, fault, now))
      ensures reply == BadRequest <==> report.ReportOther?
      ensures reply == NotFound <==>
                !report.ReportOther? && !readFails && !(id in old(jobs) && Owned(old(jobs)[id], device, tenant))
      ensures reply == ServerError <==>
                || (readFails && !report.ReportOther?)
                || (ResultValid(old(State()), Result(id, device, tenant, report, started, child, fault, now)) &&
                    (fault.InsertFails? || fault.UpdateFails?))
      ensures reply in {NoContent, BadRequest, NotFound, Conflict, ServerError}
      ensures reply == NoContent ==> !WasReported(old(trace), id)
      ensures !readFails ==> ResultByFields(old(jobs), jobs, reply == NoContent,
                                            Result(id, device, tenant, report, started, child, fault, now))
      ensures readFails ==> jobs == old(jobs)
    {
      hide NextAll, AllEnabled;
      ghost var before := State();
      ghost var e := Result(id, device, tenant, report, started, child, fault, now);
      if ResultAccepted(before, e) {
        ResultWritten(before, e);
        FirstResult(trace, e);
      } else {
        ResultIgnored(before, e);
      }
      ResultFields(before, e);
      hide Next, Enabled, WasReported, ResultByFields;
      if report.ReportOther? {
        Record(before, e);
        return BadRequest;
      }
      var target := TargetStatus(report).value;
      if readFails {
        return ServerError;
      }
      if id !in jobs || !Owned(jobs[id], device, tenant) {
        Record(before, e);
        return NotFound;
      }
      var current := jobs[id].status;
      if current == Acknowledged {
        current := Running;
      }
      if !ValidateTransition(current, target) {
        Record(before, e);
        return Conflict;
      }
      if fault.InsertFails? {
        Record(before, e);
        return ServerError;
      }
      results := results + [id];
      if fault.UpdateFails? {
        Record(before, e);
        return ServerError;
      }
      var row := jobs[id];
      jobs := jobs[id := row.(status := target, completedAt := Some(now),
                              startedAt := Coalesce(row.startedAt, started))];
      if ShouldRetry(target, row.retryCount, row.maxRetries) && !fault.RetryFails? {
        jobs := jobs[child := FreshJob(tenant, device, Some(id), row.retryCount + 1, row.maxRetries, now)];
        autoRetries := autoRetries + [(id, child)];
      }
      Record(before, e);
      return NoContent;
    }

    // ----- operators and scheduler -----

    method InsertJob(id: JobId, tenant: TenantId, device: DeviceId, maxRetries: int, now: int)
      requires Valid() && id !in jobs
      modifies this
      ensures Valid() && trace == old(trace) + [Insert(id, tenant, device, maxRetries, now)]
      ensures State() == Next(old(State()), Insert(id, tenant, device, maxRetries, now))
      ensures jobs == old(jobs)[id := Job(tenant, device, Queued, now, None, None, None, None, None, 0, maxRetries)]
      ensures jobs.Keys == old(jobs).Keys + {id}
    {
      hide NextAll, AllEnabled;
      ghost var before, e := State(), Insert(id, tenant, device, maxRetries, now);
      InsertEffect(before, e);
      hide Next, Enabled;
      jobs := jobs[id := FreshJob(tenant, device, None, 0, maxRetries, now)];
      Record(before, e);
    }

    /** POST /v1/jobs and the scheduler: one queued job per device, stopping at the first failed insert. */
    method Create(tenant: TenantId, devices: seq<DeviceId>, ids: seq<JobId>, maxRetries: int, failAt: nat, now: int)
      returns (created: nat)
      requires Valid() && |ids| == |devices| && FreshIds(ids, 0, jobs.Keys)
      modifies this
      ensures created == if failAt < |devices| then failAt else |devices|
      ensures Valid() && trace == old(trace) + InsertScript(tenant, devices, ids, maxRetries, now, created)
      ensures CreatedRows(old(jobs), jobs, tenant, devices, ids, maxRetries, now, created)
    {
      CreatedNone(jobs, tenant, devices, ids, maxRetries, now);
      InsertNone(trace, tenant, devices, ids, maxRetries, now);
      hide Next, NextAll, AllEnabled, FreshIds, CreatedRows, InsertScript;
      created := 0;
      while created < |devices| && created != failAt
        invariant created <= |devices| && created <= failAt && FreshIds(ids, created, jobs.Keys)
        invariant Valid() && trace == old(trace) + InsertScript(tenant, devices, ids, maxRetries, now, created)
        invariant CreatedRows(old(jobs), jobs, tenant, devices, ids, maxRetries, now, created)
        decreases |devices| - created
      {
        FreshIdsNext(ids, created, jobs.Keys);
        InsertNext(old(trace), tenant, devices, ids, maxRetries, now, created);
        CreatedNext(old(jobs), jobs, tenant, devices, ids, maxRetries, now, created);
        InsertJob(ids[created], tenant, devices[created], maxRetries, now);
        created := created + 1;
      }
    }

    /** POST /v1/jobs/{id}/cancel. */
    method CancelJob(id: JobId, tenant: TenantId, inScope: bool, fault: DbFault, now: int) returns (reply: Reply)
      requires Valid()
      modifies this
      ensures Valid()
      ensures reply == NoContent ==>
                && State() == Next(old(State()), Cancel(id, tenant, now))
                && trace == old(trace) + [Cancel(id, tenant, now)]
      ensures reply != NoContent ==> State() == old(State()) && trace == old(trace)
      ensures reply == NoContent <==>
                && fault.Healthy? && id in old(jobs) && old(jobs)[id].tenant == tenant
                && inScope && old(jobs)[id].status in {Pending, Queued, CdmHold, Dispatched}
      ensures reply == NoContent ==>
                jobs == old(jobs)[id := old(jobs)[id].(status := Cancelled, completedAt := Some(now))]
      ensures reply == NotFound <==> !fault.ReadFails? && !(id in old(jobs) && old(jobs)[id].tenant == tenant)
      ensures reply == Forbidden <==>
                !fault.ReadFails? && id in old(jobs) && old(jobs)[id].tenant == tenant && !inScope
      ensures reply == Conflict <==>
                && !fault.ReadFails? && id in old(jobs) && old(jobs)[id].tenant == tenant
                && inScope && old(jobs)[id].status !in {Pending, Queued, CdmHold, Dispatched}
      ensures reply in {NoContent, NotFound, Forbidden, Conflict, ServerError}
    {
      hide NextAll, AllEnabled;
      if fault.ReadFails? {
        return ServerError;
      }
      if id !in jobs || jobs[id].tenant != tenant {
        return NotFound;
      }
      if !inScope {
        return Forbidden;
      }
      if !IsCancellable(jobs[id].status) {
        return Conflict;
      }
      if fault.WriteFails? {
        return ServerError;
      }
      ghost var before, e := State(), Cancel(id, tenant, now);
      RowsOnly(before, e);
      jobs := jobs[id := jobs[id].(status := Cancelled, completedAt := Some(now))];
      assert jobs == RowsAfter(before.jobs, e);
      hide Next, Enabled;
      Record(before, e);
      return NoContent;
    }

    /** POST /v1/jobs/{id}/retry; no bound on the retry count here. */
    method RetryJob(id: JobId, tenant: TenantId, child: JobId, inScope: bool, quotaOk: bool, fault: DbFault, now: int)
      returns (reply: Reply)
      requires Valid() && child !in jobs
      modifies this
      ensures Valid()
      ensures reply == NoContent ==>
                && State() == Next(old(State()), Retry(id, tenant, child, now))
                && trace == old(trace) + [Retry(id, tenant, child, now)]
      ensures reply != NoContent ==> State() == old(State()) && trace == old(trace)
      ensures reply == NoContent <==>
                && fault.Healthy? && id in old(jobs) && old(jobs)[id].tenant == tenant
                && inScope && old(jobs)[id].status in {Failed, TimedOut} && quotaOk
      ensures reply == NoContent ==>
                jobs == old(jobs)[child := Job(tenant, old(jobs)[id].device, Queued, now, None, None, None, None,
                                               Some(id), old(jobs)[id].retryCount + 1, old(jobs)[id].maxRetries)]
      ensures reply == NotFound <==> !fault.ReadFails? && !(id in old(jobs) && old(jobs)[id].tenant == tenant)
      ensures reply == Forbidden <==>
                !fault.ReadFails? && id in old(jobs) && old(jobs)[id].tenant == tenant && !inScope
      ensures reply == Conflict <==>
                && !fault.ReadFails? && id in old(jobs) && old(jobs)[id].tenant == tenant
                && inScope && !(old(jobs)[id].status in {Failed, TimedOut} && quotaOk)
      ensures reply in {NoContent, NotFound, Forbidden, Conflict, ServerError}
    {
      hide NextAll, AllEnabled;
      if fault.ReadFails? {
        return ServerError;
      }
      if id !in jobs || jobs[id].tenant != tenant {
        return NotFound;
      }
      if !inScope {
        return Forbidden;
      }
      if !IsRetryable(jobs[id].status) {
        return Conflict;
      }
      if !quotaOk {
        return Conflict;
      }
      if fault.WriteFails? {
        return ServerError;
      }
      ghost var before, e := State(), Retry(id, tenant, child, now);
      RetryEffect(before, e);
      hide Next, Enabled;
      var row := jobs[id];
      jobs := jobs[child := FreshJob(tenant, row.device, Some(id), row.retryCount + 1, row.maxRetries, now)];
      Record(before, e);
      return NoContent;
    }

    /** The job part of RevokeDevice: held jobs are not touched. */
    method RevokeJobs(device: DeviceId, tenant: TenantId)
      requires Valid()
      modifies this
      ensures Valid() && trace == old(trace) + [Revoke(device, tenant)]
      ensures State() == Next(old(State()), Revoke(device, tenant))
      ensures jobs.Keys == old(jobs).Keys
      ensures forall x :: x in jobs ==> var j := old(jobs)[x];
                jobs[x] == if j.device == device && j.tenant == tenant &&
                              (j.status == Pending || j.status == Queued || j.status == Dispatched)
                           then j.(status := Cancelled) else j
    {
      hide NextAll, AllEnabled;
      ghost var before, e := State(), Revoke(device, tenant);
      RowsOnly(before, e);
      jobs := map id | id in jobs ::
        if Owned(jobs[id], device, tenant) && jobs[id].status in {Pending, Queued, Dispatched}
        then jobs[id].(status := Cancelled) else jobs[id];
      assert jobs == RowsAfter(before.jobs, e);
      hide Next, Enabled;
      Record(before, e);
    }

    method ReapStuckDispatched(timeout: int, now: int)
      requires Valid()
      modifies this
      ensures Valid() && trace == old(trace) + [ReapDispatched(timeout, now)]
      ensures State() == Next(old(State()), ReapDispatched(timeout, now))
      ensures jobs.Keys == old(jobs).Keys
      ensures forall x :: x in jobs ==> var j := old(jobs)[x];
                jobs[x] == if j.status == Dispatched && j.dispatchedAt.Some? && j.dispatchedAt.value < now - timeout
                           then j.(status := Queued, dispatchedAt := None) else j
    {
      hide NextAll, AllEnabled;
      ghost var before, e := State(), ReapDispatched(timeout, now);
      RowsOnly(before, e);
      var cutoff := now - timeout;
      jobs := map id | id in jobs ::
        if jobs[id].status == Dispatched && OlderThan(jobs[id].dispatchedAt, cutoff)
        then jobs[id].(status := Queued, dispatchedAt := None) else jobs[id];
      assert jobs == RowsAfter(before.jobs, e);
      hide Next, Enabled;
      Record(before, e);
    }

    method ReapStuckInflight(timeout: int, now: int)
      requires Valid()
      modifies this
      ensures Valid() && trace == old(trace) + [ReapInflight(timeout, now)]
      ensures State() == Next(old(State()), ReapInflight(timeout, now))
      ensures jobs.Keys == old(jobs).Keys
      ensures forall x :: x in jobs ==> var j := old(jobs)[x];
                var begun := if j.startedAt.Some? then j.startedAt else j.acknowledgedAt;
                jobs[x] == if (j.status == Acknowledged || j.status == Running) &&
                              begun.Some? && begun.value < now - timeout
                           then j.(status := TimedOut, completedAt := Some(now)) else j
    {
      hide NextAll, AllEnabled;
      ghost var before, e := State(), ReapInflight(timeout, now);
      RowsOnly(before, e);
      var cutoff := now - timeout;
      jobs := map id | id in jobs ::
        if jobs[id].status in {Acknowledged, Running} &&
           OlderThan(Coalesce(jobs[id].startedAt, jobs[id].acknowledgedAt), cutoff)
        then jobs[id].(status := TimedOut, completedAt := Some(now)) else jobs[id];
      assert jobs == RowsAfter(before.jobs, e);
      hide Next, Enabled;
      Record(before, e);
    }
  }

  /**
  What was ever stored is still there, with its fixed columns, no earlier stage,
  and finished if it was; and every row is well formed.
  */
  lemma StoreKeeps(store: JobStore, i: nat, id: JobId)
    requires store.Valid() && i <= |store.trace| && id in Tables(store.trace)[i].jobs
    ensures id in store.jobs && RowEvolves(Tables(store.trace)[i].jobs[id], store.jobs[id]) && RowOk(store.jobs[id])
    ensures IsTerminal(Tables(store.trace)[i].jobs[id].status) ==> IsTerminal(store.jobs[id].status)
  {
    var es := store.trace;
    TraceIsRun(es);
    hide NextAll, AllEnabled, IsRun, Tables;
    RowPersists(Tables(es), es, i, |es|, id);
    InvAlways(Tables(es), es, |es|);
  }

  lemma AckRow(db: Db, e: Event)
    requires AckAccepted(db, e)
    ensures Next(db, e) ==
            db.(jobs := db.jobs[e.id := db.jobs[e.id].(status := Acknowledged, acknowledgedAt := Some(e.now))])
  {
    assert RowsAfter(db.jobs, e) == db.jobs[e.id := RowAfter(e, e.id, db.jobs[e.id])];
  }

  lemma AckRefused(db: Db, e: Event)
    requires e.Ack? && !AckAccepted(db, e)
    ensures Next(db, e) == db
  {
    assert RowsAfter(db.jobs, e) == db.jobs;
  }

  lemma RetryEffect(db: Db, e: Event)
    requires RetryAccepted(db, e) && e.child !in db.jobs
    ensures Enabled(db, e)
    ensures var p := db.jobs[e.id];
            Next(db, e) == db.(jobs := db.jobs[e.child :=
              FreshJob(e.tenant, p.device, Some(e.id), p.retryCount + 1, p.maxRetries, e.now)])
  {
    assert RowsAfter(db.jobs, e) == db.jobs;
  }
}
