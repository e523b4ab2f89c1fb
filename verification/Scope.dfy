/**
API key scopes and job targets (server/auth/scope.go, and the two copies of
resolveTargets in server/api/jobs.go and server/scheduler/scheduler.go).
The three membership tables are one relation tagged by kind.
*/
module Scope {
  import opened Wrappers

  type DeviceId = nat
  type TenantId = nat
  type RefId = nat

  datatype Kind = Group | Tag | Site
  datatype Membership = Membership(kind: Kind, device: DeviceId, ref: RefId)
  datatype Db = Db(rows: seq<Membership>, tenantOf: map<DeviceId, TenantId>)

  /** An API scope or a job target: four lists of ids. */
  datatype Scope = Scope(groups: seq<RefId>, tags: seq<RefId>, sites: seq<RefId>, devices: seq<DeviceId>)

  function Refs(s: Scope, k: Kind): seq<RefId> {
    match k
    case Group => s.groups
    case Tag => s.tags
    case Site => s.sites
  }

  predicate Selected(db: Db, tenant: TenantId, k: Kind, ref: RefId, m: Membership) {
    m.kind == k && m.ref == ref && m.device in db.tenantOf && db.tenantOf[m.device] == tenant
  }

  /** The membership query: devices of the tenant that belong to one group, tag or site. */
  function Query(db: Db, tenant: TenantId, k: Kind, ref: RefId): seq<DeviceId> {
    QueryRows(db, tenant, k, ref, db.rows)
  }

  function QueryRows(db: Db, tenant: TenantId, k: Kind, ref: RefId, rows: seq<Membership>): seq<DeviceId> {
    if rows == [] then []
    else QueryRows(db, tenant, k, ref, rows[..|rows| - 1]) +
         if Selected(db, tenant, k, ref, rows[|rows| - 1]) then [rows[|rows| - 1].device] else []
  }

  lemma {:induction false} QueryElements(db: Db, tenant: TenantId, k: Kind, ref: RefId, rows: seq<Membership>,
                                         d: DeviceId)
    ensures d in QueryRows(db, tenant, k, ref, rows) <==>
            exists m :: m in rows && Selected(db, tenant, k, ref, m) && m.device == d
  {
    if rows != [] {
      var init, last := rows[..|rows| - 1], rows[|rows| - 1];
      QueryElements(db, tenant, k, ref, init, d);
      assert forall m :: m in rows <==> m in init || m == last;
    }
  }

  /** The device belongs to something the scope names: what resolving means. */
  ghost predicate Covers(db: Db, tenant: TenantId, s: Scope, d: DeviceId) {
    d in s.devices ||
    (d in db.tenantOf && db.tenantOf[d] == tenant &&
     ((exists r :: r in s.groups && Membership(Group, d, r) in db.rows) ||
      (exists r :: r in s.tags && Membership(Tag, d, r) in db.rows) ||
      (exists r :: r in s.sites && Membership(Site, d, r) in db.rows)))
  }

  // ----- expansion in loops -----

  ghost predicate Distinct(s: seq<DeviceId>) {
    forall i, k :: 0 <= i < k < |s| ==> s[i] != s[k]
  }

  /** First occurrences, in order. */
  function Dedup(s: seq<DeviceId>): seq<DeviceId> {
    if s == [] then []
    else
      var init := Dedup(s[..|s| - 1]);
      if s[|s| - 1] in init then init else init + [s[|s| - 1]]
  }

  function ExpandRefs(db: Db, tenant: TenantId, k: Kind, refs: seq<RefId>): seq<DeviceId> {
    if refs == [] then [] else ExpandRefs(db, tenant, k, refs[..|refs| - 1]) + Query(db, tenant, k, refs[|refs| - 1])
  }

  /** Direct ids, then groups, tags and sites, with repetitions. */
  function Expand(db: Db, tenant: TenantId, s: Scope): seq<DeviceId> {
    s.devices + ExpandRefs(db, tenant, Group, s.groups) + ExpandRefs(db, tenant, Tag, s.tags)
    + ExpandRefs(db, tenant, Site, s.sites)
  }

  lemma DedupSnoc(s: seq<DeviceId>, d: DeviceId)
    ensures Dedup(s + [d]) == if d in Dedup(s) then Dedup(s) else Dedup(s) + [d]
  {
    assert (s + [d])[..|s|] == s;
  }

  lemma {:induction false} DedupElements(s: seq<DeviceId>)
    ensures forall d :: d in Dedup(s) <==> d in s
    ensures Distinct(Dedup(s))
  {
    if s != [] {
      DedupElements(s[..|s| - 1]);
      assert forall d :: d in s <==> d in s[..|s| - 1] || d == s[|s| - 1];
    }
  }

  /** Later ids never come before earlier ones: the order is that of first appearance. */
  lemma {:induction false} DedupPrefix(s: seq<DeviceId>, n: nat)
    requires n <= |s|
    ensures Dedup(s[..n]) <= Dedup(s)
  {
    if n < |s| {
      DedupPrefix(s[..|s| - 1], n);
      assert s[..|s| - 1][..n] == s[..n];
    } else {
      assert s[..n] == s;
    }
  }

  ghost predicate SameIds(seen: set<DeviceId>, list: seq<DeviceId>) {
    forall d :: d in seen <==> d in list
  }

  lemma SameIdsSnoc(seen: set<DeviceId>, list: seq<DeviceId>, d: DeviceId)
    requires SameIds(seen, list)
    ensures SameIds(seen + {d}, list + [d])
  {
  }

  lemma DedupNext(all: seq<DeviceId>, ids: seq<DeviceId>, i: nat)
    requires i < |ids|
    ensures var list := Dedup(all + ids[..i]);
            Dedup(all + ids[..i + 1]) == if ids[i] in list then list else list + [ids[i]]
  {
    DedupSnoc(all + ids[..i], ids[i]);
    assert all + ids[..i + 1] == all + ids[..i] + [ids[i]];
  }

  /** The inner loop: add every id not seen before. */
  method AddAll(ids: seq<DeviceId>, seen0: set<DeviceId>, list0: seq<DeviceId>, ghost all: seq<DeviceId>)
    returns (seen: set<DeviceId>, list: seq<DeviceId>)
    requires list0 == Dedup(all) && SameIds(seen0, list0)
    ensures list == Dedup(all + ids) && SameIds(seen, list)
  {
    seen, list := seen0, list0;
    assert all + ids[..0] == all;
    for i := 0 to |ids|
      invariant list == Dedup(all + ids[..i]) && SameIds(seen, list)
    {
      DedupNext(all, ids, i);
      assert ids[i] in seen <==> ids[i] in list;
      hide Dedup, SameIds;
      if ids[i] !in seen {
        SameIdsSnoc(seen, list, ids[i]);
        seen := seen + {ids[i]};
        list := list + [ids[i]];
      }
    }
    assert ids[..|ids|] == ids;
  }

  lemma ExpandRefsSnoc(db: Db, tenant: TenantId, k: Kind, refs: seq<RefId>, i: nat, all: seq<DeviceId>)
    requires i < |refs|
    ensures all + ExpandRefs(db, tenant, k, refs[..i + 1]) ==
            all + ExpandRefs(db, tenant, k, refs[..i]) + Query(db, tenant, k, refs[i])
  {
    assert refs[..i + 1][..i] == refs[..i];
  }

  method AddRefs(db: Db, tenant: TenantId, k: Kind, refs: seq<RefId>, seen0: set<DeviceId>, list0: seq<DeviceId>,
                 ghost all: seq<DeviceId>)
    returns (seen: set<DeviceId>, list: seq<DeviceId>)
    requires list0 == Dedup(all) && SameIds(seen0, list0)
    ensures list == Dedup(all + ExpandRefs(db, tenant, k, refs)) && SameIds(seen, list)
  {
    seen, list := seen0, list0;
    assert all + ExpandRefs(db, tenant, k, refs[..0]) == all;
    for i := 0 to |refs|
      invariant list == Dedup(all + ExpandRefs(db, tenant, k, refs[..i])) && SameIds(seen, list)
    {
      ExpandRefsSnoc(db, tenant, k, refs, i, all);
      hide Dedup, ExpandRefs, Query, SameIds;
      seen, list := AddAll(Query(db, tenant, k, refs[i]), seen, list, all + ExpandRefs(db, tenant, k, refs[..i]));
    }
    assert refs[..|refs|] == refs;
  }

  /** resolveTargets: first-seen order, no duplicates, exactly the covered devices. */
  method ResolveTargets(db: Db, tenant: TenantId, target: Scope) returns (deviceIds: seq<DeviceId>)
    ensures deviceIds == Dedup(Expand(db, tenant, target))
    ensures Distinct(deviceIds)
    ensures forall d :: d in deviceIds <==> Covers(db, tenant, target, d)
  {
    var seen: set<DeviceId> := {};
    assert [] + target.devices == target.devices;
    seen, deviceIds := AddAll(target.devices, {}, [], []);
    seen, deviceIds := AddRefs(db, tenant, Group, target.groups, seen, deviceIds, target.devices);
    ghost var all := target.devices + ExpandRefs(db, tenant, Group, target.groups);
    seen, deviceIds := AddRefs(db, tenant, Tag, target.tags, seen, deviceIds, all);
    all := all + ExpandRefs(db, tenant, Tag, target.tags);
    seen, deviceIds := AddRefs(db, tenant, Site, target.sites, seen, deviceIds, all);
    DedupElements(Expand(db, tenant, target));
    forall d ensures d in deviceIds <==> Covers(db, tenant, target, d) {
      ExpandCovers(db, tenant, target, d);
    }
  }

  /** ResolveScope: None stands for an unrestricted key. */
  method ResolveScope(db: Db, tenant: TenantId, scope: Option<Scope>) returns (allowed: Option<set<DeviceId>>)
    ensures allowed.None? <==> scope.None?
    ensures scope.Some? ==> forall d :: d in allowed.value <==> Covers(db, tenant, scope.value, d)
  {
    if scope.None? {
      return None;
    }
    var s := scope.value;
    var ids: set<DeviceId> := {};
    for i := 0 to |s.devices|
      invariant forall d :: d in ids <==> d in s.devices[..i]
    {
      ids := ids + {s.devices[i]};
    }
    var groups := RefsToSet(db, tenant, Group, s.groups);
    var tags := RefsToSet(db, tenant, Tag, s.tags);
    var sites := RefsToSet(db, tenant, Site, s.sites);
    allowed := Some(ids + groups + tags + sites);
    forall d ensures d in allowed.value <==> Covers(db, tenant, s, d) {
      ExpandCovers(db, tenant, s, d);
    }
  }

  method RefsToSet(db: Db, tenant: TenantId, k: Kind, refs: seq<RefId>) returns (ids: set<DeviceId>)
    ensures forall d :: d in ids <==> d in ExpandRefs(db, tenant, k, refs)
  {
    ids := {};
    for i := 0 to |refs|
      invariant forall d :: d in ids <==> d in ExpandRefs(db, tenant, k, refs[..i])
    {
      assert refs[..i + 1][..i] == refs[..i];
      var found := Query(db, tenant, k, refs[i]);
      for m := 0 to |found|
        invariant forall d :: d in ids <==> d in ExpandRefs(db, tenant, k, refs[..i]) || d in found[..m]
      {
        ids := ids + {found[m]};
      }
    }
    assert refs[..|refs|] == refs;
  }

  predicate InScope(allowed: Option<set<DeviceId>>, d: DeviceId) {
    allowed.None? || d in allowed.value
  }

  lemma {:induction false} ExpandRefsElements(db: Db, tenant: TenantId, k: Kind, refs: seq<RefId>, d: DeviceId)
    ensures d in ExpandRefs(db, tenant, k, refs) <==>
            && d in db.tenantOf && db.tenantOf[d] == tenant
            && exists r :: r in refs && Membership(k, d, r) in db.rows
  {
    if refs != [] {
      var init, last := refs[..|refs| - 1], refs[|refs| - 1];
      ExpandRefsElements(db, tenant, k, init, d);
      QueryElements(db, tenant, k, last, db.rows, d);
      assert forall r :: r in refs <==> r in init || r == last;
    }
  }

  lemma ExpandCovers(db: Db, tenant: TenantId, s: Scope, d: DeviceId)
    ensures d in Expand(db, tenant, s) <==> Covers(db, tenant, s, d)
  {
    ExpandRefsElements(db, tenant, Group, s.groups, d);
    ExpandRefsElements(db, tenant, Tag, s.tags, d);
    ExpandRefsElements(db, tenant, Site, s.sites, d);
    hide ExpandRefs;
  }

  // ----- filtering -----

  function Intersection(ids: seq<DeviceId>, allowed: Option<set<DeviceId>>): seq<DeviceId> {
    if ids == [] then []
    else Intersection(ids[..|ids| - 1], allowed) + if InScope(allowed, ids[|ids| - 1]) then [ids[|ids| - 1]] else []
  }

  method FilterDeviceIds(allowed: Option<set<DeviceId>>, ids: seq<DeviceId>) returns (filtered: seq<DeviceId>)
    ensures filtered == Intersection(ids, allowed)
    ensures forall d :: d in filtered <==> d in ids && (allowed.None? || d in allowed.value)
  {
    IntersectionElements(ids, allowed);
    if allowed.None? {
      return ids;
    }
    filtered := [];
    for i := 0 to |ids|
      invariant filtered == Intersection(ids[..i], allowed)
    {
      assert ids[..i + 1][..i] == ids[..i];
      if ids[i] in allowed.value {
        filtered := filtered + [ids[i]];
      }
    }
    assert ids[..|ids|] == ids;
  }

  lemma {:induction false} IntersectionHas(ids: seq<DeviceId>, allowed: Option<set<DeviceId>>, d: DeviceId)
    ensures d in Intersection(ids, allowed) <==> d in ids && InScope(allowed, d)
  {
    if ids != [] {
      IntersectionHas(ids[..|ids| - 1], allowed, d);
      assert d in ids <==> d in ids[..|ids| - 1] || d == ids[|ids| - 1];
    }
  }

  lemma {:induction false} IntersectionUnrestricted(ids: seq<DeviceId>)
    ensures Intersection(ids, None) == ids
  {
    if ids != [] {
      IntersectionUnrestricted(ids[..|ids| - 1]);
    }
  }

  lemma IntersectionElements(ids: seq<DeviceId>, allowed: Option<set<DeviceId>>)
    ensures forall d :: d in Intersection(ids, allowed) <==> d in ids && InScope(allowed, d)
    ensures allowed.None? ==> Intersection(ids, allowed) == ids
  {
    forall d ensures d in Intersection(ids, allowed) <==> d in ids && InScope(allowed, d) {
      IntersectionHas(ids, allowed, d);
    }
    IntersectionUnrestricted(ids);
  }

  lemma {:induction false} IntersectionDistinct(ids: seq<DeviceId>, allowed: Option<set<DeviceId>>)
    requires Distinct(ids)
    ensures Distinct(Intersection(ids, allowed))
  {
    if ids != [] {
      var init, last := ids[..|ids| - 1], ids[|ids| - 1];
      IntersectionDistinct(init, allowed);
      IntersectionElements(init, allowed);
      assert last !in Intersection(init, allowed);
    }
  }

  /** The devices a scoped key may send a job to: each once, exactly those in both target and scope. */
  method TargetsInScope(db: Db, tenant: TenantId, target: Scope, admin: bool, scope: Option<Scope>)
    returns (deviceIds: seq<DeviceId>)
    ensures Distinct(deviceIds)
    ensures forall d :: d in deviceIds <==>
              Covers(db, tenant, target, d) && (admin || scope.None? || Covers(db, tenant, scope.value, d))
  {
    deviceIds := ResolveTargets(db, tenant, target);
    if !admin && scope.Some? {
      var allowed := ResolveScope(db, tenant, scope);
      IntersectionDistinct(deviceIds, allowed);
      deviceIds := FilterDeviceIds(allowed, deviceIds);
    }
  }

  // ----- subset -----

  predicate AllInSet(candidates: seq<RefId>, allowed: seq<RefId>) {
    candidates == [] || (allowed != [] && forall i :: 0 <= i < |candidates| ==> candidates[i] in allowed)
  }

  /** allInSet as it runs: collect the allowed ids, then look for one outside. */
  method CheckAllInSet(candidates: seq<RefId>, allowed: seq<RefId>) returns (ok: bool)
    ensures ok <==> AllInSet(candidates, allowed)
    ensures ok <==> forall r :: r in candidates ==> r in allowed
  {
    if |candidates| == 0 {
      return true;
    }
    if |allowed| == 0 {
      assert candidates[0] in candidates;
      return false;
    }
    var ids: set<RefId> := {};
    for i := 0 to |allowed|
      invariant forall r :: r in ids <==> r in allowed[..i]
    {
      ids := ids + {allowed[i]};
    }
    for i := 0 to |candidates|
      invariant forall k :: 0 <= k < i ==> candidates[k] in allowed
    {
      if candidates[i] !in ids {
        return false;
      }
    }
    return true;
  }

  predicate ScopeIsSubset(outer: Option<Scope>, inner: Option<Scope>) {
    outer.None? ||
    (inner.Some? &&
     AllInSet(inner.value.groups, outer.value.groups) && AllInSet(inner.value.tags, outer.value.tags) &&
     AllInSet(inner.value.sites, outer.value.sites) && AllInSet(inner.value.devices, outer.value.devices))
  }

  ghost predicate Reaches(db: Db, tenant: TenantId, s: Option<Scope>, d: DeviceId) {
    s.None? || Covers(db, tenant, s.value, d)
  }

  /** Whatever the memberships are, the inner scope reaches only devices the outer one reaches. */
  ghost predicate NeverWider(outer: Option<Scope>, inner: Option<Scope>) {
    forall db, tenant, d :: Reaches(db, tenant, inner, d) ==> Reaches(db, tenant, outer, d)
  }

  lemma {:induction false} FreshId(ids: seq<nat>) returns (x: nat)
    ensures forall i :: 0 <= i < |ids| ==> ids[i] < x
  {
    if ids == [] {
      x := 0;
    } else {
      x := FreshId(ids[..|ids| - 1]);
      x := if ids[|ids| - 1] < x then x else ids[|ids| - 1] + 1;
    }
  }

  ghost function Missing(candidates: seq<RefId>, allowed: seq<RefId>): (r: RefId)
    requires !AllInSet(candidates, allowed)
    ensures r in candidates && r !in allowed
  {
    var i :| 0 <= i < |candidates| && candidates[i] !in allowed;
    candidates[i]
  }

  /** A reference the outer scope lacks can be given a member the outer scope does not reach. */
  lemma MissingRef(outer: Scope, inner: Scope, k: Kind, ref: RefId)
    requires ref in Refs(inner, k) && ref !in Refs(outer, k)
    ensures !NeverWider(Some(outer), Some(inner))
  {
    var d := FreshId(outer.devices);
    var m := Membership(k, d, ref);
    var db := Db([m], map[d := 0]);
    assert m in db.rows;
    assert Reaches(db, 0, Some(inner), d);
    assert !Reaches(db, 0, Some(outer), d);
  }

  lemma MissingDevice(outer: Scope, inner: Option<Scope>, d: DeviceId)
    requires d !in outer.devices && (inner.None? || d in inner.value.devices)
    ensures !NeverWider(Some(outer), inner)
  {
    var db := Db([], map[]);
    assert Reaches(db, 0, inner, d);
    assert !Reaches(db, 0, Some(outer), d);
  }

  /** The structural check is exact: it accepts precisely the scopes that are never wider. */
  lemma SubsetExactly(outer: Option<Scope>, inner: Option<Scope>)
    ensures ScopeIsSubset(outer, inner) <==> NeverWider(outer, inner)
  {
    if ScopeIsSubset(outer, inner) {
      forall db, tenant, d | Reaches(db, tenant, inner, d) ensures Reaches(db, tenant, outer, d) {
        if outer.Some? && d !in inner.value.devices {
          assert Covers(db, tenant, inner.value, d);
        }
      }
    } else if inner.None? {
      var d := FreshId(outer.value.devices);
      MissingDevice(outer.value, inner, d);
    } else {
      var o, i := outer.value, inner.value;
      if !AllInSet(i.devices, o.devices) {
        MissingDevice(o, inner, Missing(i.devices, o.devices));
      } else if !AllInSet(i.groups, o.groups) {
        MissingRef(o, i, Group, Missing(i.groups, o.groups));
      } else if !AllInSet(i.tags, o.tags) {
        MissingRef(o, i, Tag, Missing(i.tags, o.tags));
      } else {
        MissingRef(o, i, Site, Missing(i.sites, o.sites));
      }
    }
  }
}
