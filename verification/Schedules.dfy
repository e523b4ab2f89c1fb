/**
Scheduled jobs: the tick of server/scheduler/scheduler.go over the rows of
server/store/scheduled_jobs.go. A cron expression is a set of instants with a
`next` that returns the least instant after a time; nothing else about it is used.
*/
module Schedules {
  import opened Wrappers

  type ScheduleId = nat

  /** A parsed cron expression. */
  datatype Cron = Cron(fires: int -> bool, next: int -> int)

  ghost predicate CronOk(c: Cron) {
    forall t :: t < c.next(t) && c.fires(c.next(t)) && forall u :: t < u < c.next(t) ==> !c.fires(u)
  }

  /** `since` records when `nextRun` was last computed afresh, by creation or a new expression. */
  datatype Schedule = Schedule(cron: Cron, enabled: bool, lastRun: Option<int>, nextRun: Option<int>, since: int)

  datatype Event =
    | Create(id: ScheduleId, cron: Cron, enabled: bool, now: int)
    | SetCron(id: ScheduleId, cron: Cron, now: int)
    | SetEnabled(id: ScheduleId, enabled: bool)
    | Delete(id: ScheduleId)
    | Tick(now: int, undispatched: set<ScheduleId>, unmarked: set<ScheduleId>)

  predicate Due(s: Schedule, now: int) {
    s.enabled && s.nextRun.Some? && s.nextRun.value <= now
  }

  /** MarkScheduledJobRun with the next instant after now. */
  function Mark(s: Schedule, now: int): Schedule {
    s.(lastRun := Some(now), nextRun := Some(s.cron.next(now)))
  }

  predicate Fires(rows: map<ScheduleId, Schedule>, e: Event, id: ScheduleId) {
    e.Tick? && id in rows && Due(rows[id], e.now) && id !in e.undispatched
  }

  function Next(rows: map<ScheduleId, Schedule>, e: Event): map<ScheduleId, Schedule> {
    match e
    case Create(id, cron, enabled, now) => rows[id := Schedule(cron, enabled, None, Some(cron.next(now)), now)]
    case SetCron(id, cron, now) =>
      if id in rows then rows[id := rows[id].(cron := cron, nextRun := Some(cron.next(now)), since := now)] else rows
    case SetEnabled(id, enabled) => if id in rows then rows[id := rows[id].(enabled := enabled)] else rows
    case Delete(id) => rows - {id}
    case Tick(now, undispatched, unmarked) =>
      map id | id in rows :: if Fires(rows, e, id) && id !in unmarked then Mark(rows[id], now) else rows[id]
  }

  ghost predicate Enabled(rows: map<ScheduleId, Schedule>, e: Event) {
    match e
    case Create(id, cron, _, _) => id !in rows && CronOk(cron)
    case SetCron(_, cron, _) => CronOk(cron)
    case _ => true
  }

  function MarkAll(rows: map<ScheduleId, Schedule>, done: seq<ScheduleId>, skip: set<ScheduleId>, now: int)
    : map<ScheduleId, Schedule>
  {
    map id | id in rows :: if id in done && id !in skip then Mark(rows[id], now) else rows[id]
  }

  lemma MarkAllSnoc(rows: map<ScheduleId, Schedule>, done: seq<ScheduleId>, id: ScheduleId, skip: set<ScheduleId>,
                    now: int)
    requires id in rows && id !in done
    ensures id in MarkAll(rows, done, skip, now)
    ensures MarkAll(rows, done + [id], skip, now) ==
            if id in skip then MarkAll(rows, done, skip, now)
            else MarkAll(rows, done, skip, now)[id := Mark(MarkAll(rows, done, skip, now)[id], now)]
  {
  }

  lemma MarkAllNone(rows: map<ScheduleId, Schedule>, skip: set<ScheduleId>, now: int)
    ensures MarkAll(rows, [], skip, now) == rows
  {
  }

  function NextRun(rows: map<ScheduleId, Schedule>, id: ScheduleId): int {
    if id in rows && rows[id].nextRun.Some? then rows[id].nextRun.value else 0
  }

  lemma {:induction false} EarliestExists(rows: map<ScheduleId, Schedule>, s: set<ScheduleId>) returns (id: ScheduleId)
    requires s != {}
    ensures id in s && forall other :: other in s ==> NextRun(rows, id) <= NextRun(rows, other)
    decreases |s|
  {
    id :| id in s;
    var rest := s - {id};
    if rest == {} {
      assert s == {id};
    } else {
      var best := EarliestExists(rows, rest);
      if NextRun(rows, best) < NextRun(rows, id) {
        id := best;
      }
    }
  }

  class Scheduler {
    var rows: map<ScheduleId, Schedule>

    /** The due schedules, ordered by their next run; ties in any order. */
    method ListDue(now: int) returns (due: seq<ScheduleId>)
      ensures forall id :: id in due <==>
                id in rows && rows[id].enabled && rows[id].nextRun.Some? && rows[id].nextRun.value <= now
      ensures forall i, k :: 0 <= i < k < |due| ==> due[i] != due[k]
      ensures forall i, k :: 0 <= i < k < |due| ==> NextRun(rows, due[i]) <= NextRun(rows, due[k])
    {
      due := [];
      var todo := set id | id in rows && rows[id].enabled && rows[id].nextRun.Some? && rows[id].nextRun.value <= now;
      while todo != {}
        invariant forall id :: id in todo ==> id in rows && Due(rows[id], now)
        invariant forall id :: id in due <==> id in rows && Due(rows[id], now) && id !in todo
        invariant forall i, k :: 0 <= i < k < |due| ==> due[i] != due[k]
        invariant forall i, k :: 0 <= i < k < |due| ==> NextRun(rows, due[i]) <= NextRun(rows, due[k])
        invariant forall i, id :: 0 <= i < |due| && id in todo ==> NextRun(rows, due[i]) <= NextRun(rows, id)
        decreases todo
      {
        var _ := EarliestExists(rows, todo);
        var id :| id in todo && forall other :: other in todo ==> NextRun(rows, id) <= NextRun(rows, other);
        todo := todo - {id};
        due := due + [id];
      }
    }

    /** One tick: each due schedule fires once; a failed dispatch or update leaves its row alone. */
    method EvaluateScheduledJobs(now: int, undispatched: set<ScheduleId>, unmarked: set<ScheduleId>)
      returns (fired: seq<ScheduleId>)
      modifies this
      ensures rows == Next(old(rows), Tick(now, undispatched, unmarked))
      ensures forall id :: id in fired <==> Fires(old(rows), Tick(now, undispatched, unmarked), id)
      ensures forall id :: id in fired <==>
                && id in old(rows) && old(rows)[id].enabled && id !in undispatched
                && old(rows)[id].nextRun.Some? && old(rows)[id].nextRun.value <= now
      ensures rows.Keys == old(rows).Keys
      ensures forall id :: id in rows ==>
                rows[id] == if id in fired && id !in unmarked
                            then old(rows)[id].(lastRun := Some(now), nextRun := Some(old(rows)[id].cron.next(now)))
                            else old(rows)[id]
      ensures forall i, k :: 0 <= i < k < |fired| ==> fired[i] != fired[k]
    {
      var due := ListDue(now);
      fired := [];
      MarkAllNone(rows, undispatched + unmarked, now);
      for i := 0 to |due|
        invariant i == 0 ==> due[..i] == []
        invariant rows == MarkAll(old(rows), due[..i], undispatched + unmarked, now)
        invariant forall id :: id in fired <==> id in due[..i] && id !in undispatched
        invariant forall i, k :: 0 <= i < k < |fired| ==> fired[i] != fired[k]
      {
        hide MarkAll;
        var id := due[i];
        assert due[..i + 1] == due[..i] + [id] && id !in due[..i];
        MarkAllSnoc(old(rows), due[..i], id, undispatched + unmarked, now);
        if id !in undispatched {
          fired := fired + [id];
          if id !in unmarked {
            rows := rows[id := rows[id].(lastRun := Some(now), nextRun := Some(rows[id].cron.next(now)))];
          }
        }
      }
      assert due[..|due|] == due;
      assert rows == Next(old(rows), Tick(now, undispatched, unmarked));
    }
  }

  // ----- runs -----

  ghost predicate IsRun(rs: seq<map<ScheduleId, Schedule>>, es: seq<Event>) {
    && |rs| == |es| + 1 && rs[0] == map[]
    && forall i :: 0 <= i < |es| ==> Enabled(rs[i], es[i]) && rs[i + 1] == Next(rs[i], es[i])
  }

  function Clock(e: Event): Option<int> {
    match e
    case Create(_, _, _, now) => Some(now)
    case SetCron(_, _, now) => Some(now)
    case Tick(now, _, _) => Some(now)
    case _ => None
  }

  ghost predicate ClockInOrder(es: seq<Event>) {
    forall i, k :: 0 <= i < k < |es| && Clock(es[i]).Some? && Clock(es[k]).Some? ==>
      Clock(es[i]).value <= Clock(es[k]).value
  }

  /** The next run is an instant of the schedule's expression, after it was last computed afresh. */
  ghost predicate RowOk(s: Schedule) {
    CronOk(s.cron) && s.nextRun.Some? && s.cron.fires(s.nextRun.value) && s.since < s.nextRun.value
  }

  lemma {:induction false} RowsOk(rs: seq<map<ScheduleId, Schedule>>, es: seq<Event>, n: nat, id: ScheduleId)
    requires IsRun(rs, es) && n <= |es| && id in rs[n]
    ensures RowOk(rs[n][id])
  {
    if id in rs[n - 1] {
      RowsOk(rs, es, n - 1, id);
    }
  }

  /** After an error-free tick nothing enabled is due any more, however many instants were missed. */
  lemma NothingDueAfterTick(rs: seq<map<ScheduleId, Schedule>>, es: seq<Event>, n: nat, id: ScheduleId)
    requires IsRun(rs, es) && n < |es| && es[n].Tick? && es[n].undispatched == {} && es[n].unmarked == {}
    requires id in rs[n + 1]
    ensures !Due(rs[n + 1][id], es[n].now)
  {
    RowsOk(rs, es, n, id);
  }

  /** The row's next run is later than a moment already past, as long as the row lives. */
  lemma {:induction false} NextRunMovesOn(rs: seq<map<ScheduleId, Schedule>>, es: seq<Event>, i: nat, k: nat,
                                          id: ScheduleId, t: int)
    requires IsRun(rs, es) && i <= k <= |es|
    requires forall m :: i <= m < |es| && Clock(es[m]).Some? ==> t <= Clock(es[m]).value
    requires id in rs[i] ==> rs[i][id].nextRun.Some? && t < rs[i][id].nextRun.value
    requires id in rs[k]
    ensures rs[k][id].nextRun.Some? && t < rs[k][id].nextRun.value
  {
    if i < k {
      if id in rs[k - 1] {
        NextRunMovesOn(rs, es, i, k - 1, id, t);
        RowsOk(rs, es, k - 1, id);
      }
    }
  }

  /**
  Firings inject into instants: two firings of a schedule happen for different
  instants, the later instant lying after the earlier firing, provided the
  earlier run was marked.
  */
  lemma FiringsInject(rs: seq<map<ScheduleId, Schedule>>, es: seq<Event>, i: nat, k: nat, id: ScheduleId)
    requires IsRun(rs, es) && ClockInOrder(es) && i < k < |es|
    requires Fires(rs[i], es[i], id) && Fires(rs[k], es[k], id) && id !in es[i].unmarked
    ensures rs[i][id].nextRun.Some? && rs[i][id].cron.fires(rs[i][id].nextRun.value)
    ensures rs[k][id].nextRun.Some? && rs[k][id].cron.fires(rs[k][id].nextRun.value)
    ensures rs[i][id].nextRun.value <= es[i].now < rs[k][id].nextRun.value <= es[k].now
  {
    RowsOk(rs, es, i, id);
    RowsOk(rs, es, k, id);
    assert Clock(es[i]) == Some(es[i].now);
    NextRunMovesOn(rs, es, i + 1, k, id, es[i].now);
  }

  /** The proviso is needed: a firing that was not marked fires for the same instant at the next tick. */
  lemma UnmarkedFiresAgain(rs: seq<map<ScheduleId, Schedule>>, es: seq<Event>, i: nat, id: ScheduleId)
    requires IsRun(rs, es) && ClockInOrder(es) && i + 1 < |es| && Fires(rs[i], es[i], id)
    requires es[i + 1].Tick? && id !in es[i + 1].undispatched
    ensures id in rs[i + 1]
    ensures Fires(rs[i + 1], es[i + 1], id) && rs[i + 1][id].nextRun == rs[i][id].nextRun <==>
            id in es[i].unmarked
  {
    RowsOk(rs, es, i, id);
    assert Clock(es[i]) == Some(es[i].now) && Clock(es[i + 1]) == Some(es[i + 1].now);
  }

  /** Firing i stands for instant u: it was due at or before u and happened at or after it. */
  ghost predicate Stands(rs: seq<map<ScheduleId, Schedule>>, es: seq<Event>, i: nat, id: ScheduleId, u: int)
    requires |rs| == |es| + 1 && i < |es|
  {
    Fires(rs[i], es[i], id) && rs[i][id].nextRun.value <= u <= es[i].now
  }

  /** No instant is lost: each one before the next run is covered by a firing, failures notwithstanding. */
  lemma {:induction false} InstantsCovered(rs: seq<map<ScheduleId, Schedule>>, es: seq<Event>, n: nat,
                                           id: ScheduleId, u: int)
    requires IsRun(rs, es) && n <= |es| && id in rs[n] && rs[n][id].cron.fires(u)
    requires rs[n][id].since < u && rs[n][id].nextRun.Some? && u < rs[n][id].nextRun.value
    ensures exists i :: 0 <= i < n && Stands(rs, es, i, id, u)
  {
    var e := es[n - 1];
    if id in rs[n - 1] {
      RowsOk(rs, es, n - 1, id);
      if Fires(rs[n - 1], e, id) && rs[n - 1][id].nextRun.value <= u {
        assert Stands(rs, es, n - 1, id, u);
      } else {
        InstantsCovered(rs, es, n - 1, id, u);
      }
    }
  }

  /** A schedule that is switched off does not fire until it is switched on again. */
  lemma {:induction false} OffMeansSilent(rs: seq<map<ScheduleId, Schedule>>, es: seq<Event>, i: nat, k: nat,
                                          id: ScheduleId)
    requires IsRun(rs, es) && i < k < |es| && es[i] == SetEnabled(id, false)
    requires forall m :: i < m < k ==> !(es[m].Create? && es[m].id == id) && es[m] != SetEnabled(id, true)
    ensures id in rs[k] ==> !rs[k][id].enabled
    ensures !Fires(rs[k], es[k], id)
  {
    if i + 1 < k {
      OffMeansSilent(rs, es, i, k - 1, id);
    }
  }

  /** A schedule that is switched on fires exactly at the ticks that find its next run come, dispatch permitting. */
  lemma {:induction false} OnMeansEnabled(rs: seq<map<ScheduleId, Schedule>>, es: seq<Event>, i: nat, k: nat,
                                          id: ScheduleId)
    requires IsRun(rs, es) && i < k < |es| && es[i] == SetEnabled(id, true) && id in rs[k]
    requires forall m :: i < m < k ==> !(es[m].Create? && es[m].id == id) && es[m] != SetEnabled(id, false)
    ensures rs[k][id].enabled
    ensures Fires(rs[k], es[k], id) <==>
            && es[k].Tick? && id !in es[k].undispatched
            && rs[k][id].nextRun.Some? && rs[k][id].nextRun.value <= es[k].now
  {
    if i + 1 < k {
      OnMeansEnabled(rs, es, i, k - 1, id);
    }
  }
}
