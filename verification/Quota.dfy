/**
Tenant quotas (server/quota/quota.go). The check counts rows and the insert
follows later, without a transaction, so concurrent requests can overshoot the
limit; this module says by how much, for devices and for API keys alike.
*/
module Quota {
  /** CheckDevices and CheckAPIKeys: adding one must not exceed the limit. */
  predicate Passes(limit: int, count: nat) {
    limit < 0 || count + 1 <= limit
  }

  /** Rows in the table, and requests that passed the check and have not inserted yet. */
  datatype Tenant = Tenant(count: nat, cleared: nat)

  datatype Event = Check | Insert | Abort | Remove

  predicate CanHappen(s: Tenant, e: Event, atOnce: nat) {
    match e
    case Check => s.cleared < atOnce
    case Insert => s.cleared > 0
    case Abort => s.cleared > 0
    case Remove => s.count > 0
  }

  function Next(limit: int, s: Tenant, e: Event): Tenant {
    match e
    case Check => if Passes(limit, s.count) then s.(cleared := s.cleared + 1) else s
    case Insert => if s.cleared > 0 then Tenant(s.count + 1, s.cleared - 1) else s
    case Abort => if s.cleared > 0 then s.(cleared := s.cleared - 1) else s
    case Remove => if s.count > 0 then s.(count := s.count - 1) else s
  }

  ghost predicate IsRun(limit: int, atOnce: nat, ss: seq<Tenant>, es: seq<Event>) {
    && |ss| == |es| + 1 && ss[0].cleared == 0
    && forall i :: 0 <= i < |es| ==> CanHappen(ss[i], es[i], atOnce) && ss[i + 1] == Next(limit, ss[i], es[i])
  }

  /** A request is refused exactly if there is a limit and it is reached. */
  lemma RefusedExactly(limit: int, s: Tenant)
    ensures Next(limit, s, Check) == if 0 <= limit <= s.count then s else Tenant(s.count, s.cleared + 1)
  {
  }

  /** The highest count that k requests at once can reach. */
  function Bound(limit: nat, k: nat): nat
    requires k >= 1
  {
    if limit == 0 then 0 else limit + k - 1
  }

  /** With at most k requests between check and insert at once, the count never passes the bound. */
  lemma {:induction false} OvershootBounded(limit: nat, k: nat, ss: seq<Tenant>, es: seq<Event>, n: nat)
    requires IsRun(limit, k, ss, es) && n <= |es| && k >= 1 && ss[0].count <= limit
    ensures ss[n].count + ss[n].cleared <= Bound(limit, k) <= limit + k - 1
    ensures ss[n].cleared <= k
  {
    if n > 0 {
      OvershootBounded(limit, k, ss, es, n - 1);
    }
  }

  /** A burst of n equal events. */
  function Burst(e: Event, n: nat): seq<Event> {
    seq(n, _ => e)
  }

  /** k requests pass the check side by side while one place is left, then all insert: the bound is reached. */
  lemma OvershootReached(limit: nat, k: nat) returns (ss: seq<Tenant>, es: seq<Event>)
    requires k >= 1
    ensures IsRun(limit, k, ss, es) && ss[0].count <= limit && ss[|es|].count == Bound(limit, k)
  {
    if limit == 0 {
      ss, es := [Tenant(0, 0)], [];
    } else {
      es := Burst(Check, k) + Burst(Insert, k);
      ss := seq(2 * k + 1, i requires 0 <= i < 2 * k + 1 =>
                  if i <= k then Tenant(limit - 1, i) else Tenant(limit - 1 + (i - k), 2 * k - i));
    }
  }
}
