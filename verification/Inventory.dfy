/**
Package inventory: the agent's snapshot diff (agent/inventory/collector.go) and
its application to the server's package table (server/api/checkin.go).

The table has no unique constraint on (device, name, manager), so inserting a
row always adds one; updates and deletes touch every matching row.
*/
module Inventory {
  import opened Wrappers

  type DeviceId = nat

  datatype Pkg = Pkg(name: string, version: string, manager: string)
  datatype Delta = Delta(added: seq<Pkg>, updated: seq<Pkg>, removed: seq<Pkg>)
  datatype Row = Row(device: DeviceId, pkg: Pkg)

  function PkgKey(p: Pkg): string {
    p.manager + ":" + p.name
  }

  /** The collected list as a map; of two packages with one key the later wins. */
  function Snapshot(list: seq<Pkg>): map<string, Pkg> {
    if list == [] then map[]
    else Snapshot(list[..|list| - 1])[PkgKey(list[|list| - 1]) := list[|list| - 1]]
  }

  ghost predicate Keyed(m: map<string, Pkg>) {
    forall k :: k in m ==> PkgKey(m[k]) == k
  }

  predicate Has(m: map<string, Pkg>, p: Pkg) {
    PkgKey(p) in m && m[PkgKey(p)] == p
  }

  predicate IsAdded(before: map<string, Pkg>, after: map<string, Pkg>, p: Pkg) {
    Has(after, p) && PkgKey(p) !in before
  }

  predicate IsUpdated(before: map<string, Pkg>, after: map<string, Pkg>, p: Pkg) {
    Has(after, p) && PkgKey(p) in before && before[PkgKey(p)].version != p.version
  }

  predicate IsRemoved(before: map<string, Pkg>, after: map<string, Pkg>, p: Pkg) {
    Has(before, p) && PkgKey(p) !in after
  }

  ghost predicate DistinctKeys(ps: seq<Pkg>) {
    forall i, k :: 0 <= i < k < |ps| ==> PkgKey(ps[i]) != PkgKey(ps[k])
  }

  /** The three lists, in whatever order map iteration produced them. */
  ghost predicate IsDelta(before: map<string, Pkg>, after: map<string, Pkg>, d: Delta) {
    && DistinctKeys(d.added) && DistinctKeys(d.updated) && DistinctKeys(d.removed)
    && (forall p :: p in d.added <==> IsAdded(before, after, p))
    && (forall p :: p in d.updated <==> IsUpdated(before, after, p))
    && (forall p :: p in d.removed <==> IsRemoved(before, after, p))
  }

  const EMPTY := Delta([], [], [])

  /** What one call may do to the last snapshot, and what it returns. */
  ghost predicate Computes(last: Option<map<string, Pkg>>, collected: Option<seq<Pkg>>,
                           last': Option<map<string, Pkg>>, r: Option<Delta>)
  {
    if collected.None? then last' == last && r == None
    else
      && last' == Some(Snapshot(collected.value))
      && (last.None? ==> r == None)
      && (last.Some? ==>
            IsDelta(last.value, last'.value, if r.Some? then r.value else EMPTY) && r != Some(EMPTY))
  }

  lemma {:induction false} SnapshotKeyed(list: seq<Pkg>)
    ensures Keyed(Snapshot(list))
  {
    if list != [] {
      SnapshotKeyed(list[..|list| - 1]);
    }
  }

  class Collector {
    var lastPkgs: Option<map<string, Pkg>>

    constructor ()
      ensures lastPkgs == None
    {
      lastPkgs := None;
    }

    method ComputeDelta(collected: Option<seq<Pkg>>) returns (r: Option<Delta>)
      requires lastPkgs.Some? ==> Keyed(lastPkgs.value)
      modifies this
      ensures Computes(old(lastPkgs), collected, lastPkgs, r)
      ensures lastPkgs.Some? ==> Keyed(lastPkgs.value)
    {
      if collected.None? {
        return None;
      }
      var current: map<string, Pkg> := map[];
      for i := 0 to |collected.value|
        invariant current == Snapshot(collected.value[..i])
      {
        assert collected.value[..i + 1][..i] == collected.value[..i];
        current := current[PkgKey(collected.value[i]) := collected.value[i]];
      }
      assert collected.value[..|collected.value|] == collected.value;
      SnapshotKeyed(collected.value);
      if lastPkgs.None? {
        lastPkgs := Some(current);
        return None;
      }
      var last := lastPkgs.value;
      var added, updated := AddedOrUpdated(last, current);
      var removed := Removed(last, current);
      lastPkgs := Some(current);
      if |added| == 0 && |removed| == 0 && |updated| == 0 {
        return None;
      }
      r := Some(Delta(added, updated, removed));
    }

    static method AddedOrUpdated(last: map<string, Pkg>, current: map<string, Pkg>)
      returns (added: seq<Pkg>, updated: seq<Pkg>)
      requires Keyed(last) && Keyed(current)
      ensures DistinctKeys(added) && DistinctKeys(updated)
      ensures forall p :: p in added <==> IsAdded(last, current, p)
      ensures forall p :: p in updated <==> IsUpdated(last, current, p)
      ensures forall p :: p in added <==>
                var key := p.manager + ":" + p.name; key in current && current[key] == p && key !in last
      ensures forall p :: p in updated <==>
                var key := p.manager + ":" + p.name;
                key in current && current[key] == p && key in last && last[key].version != p.version
    {
      added, updated := [], [];
      var todo := current.Keys;
      while todo != {}
        invariant todo <= current.Keys && DistinctKeys(added) && DistinctKeys(updated)
        invariant forall p :: p in added <==> IsAdded(last, current, p) && PkgKey(p) !in todo
        invariant forall p :: p in updated <==> IsUpdated(last, current, p) && PkgKey(p) !in todo
        decreases todo
      {
        var key :| key in todo;
        todo := todo - {key};
        var cur := current[key];
        if key !in last {
          added := added + [cur];
        } else if last[key].version != cur.version {
          updated := updated + [cur];
        }
      }
    }

    static method Removed(last: map<string, Pkg>, current: map<string, Pkg>) returns (removed: seq<Pkg>)
      requires Keyed(last)
      ensures DistinctKeys(removed)
      ensures forall p :: p in removed <==> IsRemoved(last, current, p)
      ensures forall p :: p in removed <==>
                var key := p.manager + ":" + p.name; key in last && last[key] == p && key !in current
    {
      removed := [];
      var todo := last.Keys;
      while todo != {}
        invariant todo <= last.Keys && DistinctKeys(removed)
        invariant forall p :: p in removed <==> IsRemoved(last, current, p) && PkgKey(p) !in todo
        decreases todo
      {
        var key :| key in todo;
        todo := todo - {key};
        if key !in current {
          removed := removed + [last[key]];
        }
      }
    }
  }

  // ----- the server's table -----

  predicate Matches(r: Row, device: DeviceId, p: Pkg) {
    r.device == device && r.pkg.name == p.name && r.pkg.manager == p.manager
  }

  function InsertAll(t: seq<Row>, device: DeviceId, ps: seq<Pkg>): seq<Row> {
    if ps == [] then t else InsertAll(t, device, ps[..|ps| - 1]) + [Row(device, ps[|ps| - 1])]
  }

  function UpdateOne(t: seq<Row>, device: DeviceId, p: Pkg): seq<Row> {
    if t == [] then []
    else UpdateOne(t[..|t| - 1], device, p) +
         [if Matches(t[|t| - 1], device, p) then Row(device, p) else t[|t| - 1]]
  }

  function UpdateAll(t: seq<Row>, device: DeviceId, ps: seq<Pkg>): seq<Row> {
    if ps == [] then t else UpdateOne(UpdateAll(t, device, ps[..|ps| - 1]), device, ps[|ps| - 1])
  }

  function DeleteOne(t: seq<Row>, device: DeviceId, p: Pkg): seq<Row> {
    if t == [] then []
    else DeleteOne(t[..|t| - 1], device, p) + if Matches(t[|t| - 1], device, p) then [] else [t[|t| - 1]]
  }

  function DeleteAll(t: seq<Row>, device: DeviceId, ps: seq<Pkg>): seq<Row> {
    if ps == [] then t else DeleteOne(DeleteAll(t, device, ps[..|ps| - 1]), device, ps[|ps| - 1])
  }

  function Apply(t: seq<Row>, device: DeviceId, d: Delta): seq<Row> {
    DeleteAll(UpdateAll(InsertAll(t, device, d.added), device, d.updated), device, d.removed)
  }

  class PackageTable {
    var rows: seq<Row>

    method ProcessPackageDelta(device: DeviceId, d: Delta)
      modifies this
      ensures rows == Apply(old(rows), device, d)
    {
      for i := 0 to |d.added|
        invariant rows == InsertAll(old(rows), device, d.added[..i])
      {
        assert d.added[..i + 1][..i] == d.added[..i];
        rows := rows + [Row(device, d.added[i])];
      }
      assert d.added[..|d.added|] == d.added;
      ghost var inserted := rows;
      for i := 0 to |d.updated|
        invariant rows == UpdateAll(inserted, device, d.updated[..i])
      {
        assert d.updated[..i + 1][..i] == d.updated[..i];
        rows := UpdateOne(rows, device, d.updated[i]);
      }
      assert d.updated[..|d.updated|] == d.updated;
      ghost var updated := rows;
      for i := 0 to |d.removed|
        invariant rows == DeleteAll(updated, device, d.removed[..i])
      {
        assert d.removed[..i + 1][..i] == d.removed[..i];
        rows := DeleteOne(rows, device, d.removed[i]);
      }
      assert d.removed[..|d.removed|] == d.removed;
    }
  }

  // ----- package keys -----

  predicate ColonFree(s: string) {
    forall i :: 0 <= i < |s| ==> s[i] != ':'
  }

  /** `b` is `a` continued after a colon. */
  predicate Extends(a: string, b: string) {
    |a| < |b| && b[..|a|] == a && b[|a|] == ':'
  }

  ghost predicate CanCollide(a: string, b: string) {
    exists n, v, n', v' :: PkgKey(Pkg(n, v, a)) == PkgKey(Pkg(n', v', b))
  }

  lemma KeyPrefix(a: string, b: string, n: string, n': string)
    requires a + ":" + n == b + ":" + n' && |a| < |b|
    ensures Extends(a, b)
  {
    var key := a + ":" + n;
    assert key[..|b|] == b;
    assert b[..|a|] == key[..|a|] == a;
    assert b[|a|] == key[|a|] == ':';
  }

  lemma KeySameLength(a: string, b: string, n: string, n': string)
    requires a + ":" + n == b + ":" + n'
    ensures |a| == |b| ==> a == b
  {
    assert |a| == |b| ==> a == (a + ":" + n)[..|a|] == (b + ":" + n')[..|b|] == b;
  }

  /** Two managers can produce one key exactly when one name extends the other after a colon. */
  lemma KeyCollisions(a: string, b: string)
    requires a != b
    ensures CanCollide(a, b) <==> Extends(a, b) || Extends(b, a)
  {
    if CanCollide(a, b) {
      var n, v, n', v' :| PkgKey(Pkg(n, v, a)) == PkgKey(Pkg(n', v', b));
      KeySameLength(a, b, n, n');
      if |a| < |b| {
        KeyPrefix(a, b, n, n');
      } else {
        KeyPrefix(b, a, n', n);
      }
    }
    if Extends(a, b) {
      var rest := b[|a| + 1..] + ":";
      assert a + ":" + rest == b + ":" + "";
      assert PkgKey(Pkg(rest, "", a)) == PkgKey(Pkg("", "", b));
    }
    if Extends(b, a) {
      var rest := a[|b| + 1..] + ":";
      assert b + ":" + rest == a + ":" + "";
      assert PkgKey(Pkg("", "", a)) == PkgKey(Pkg(rest, "", b));
    }
  }

  /** With colon-free manager names the key determines manager and name. */
  lemma KeyInjective(p: Pkg, q: Pkg)
    requires ColonFree(p.manager) && ColonFree(q.manager) && PkgKey(p) == PkgKey(q)
    ensures p.manager == q.manager && p.name == q.name
  {
    if p.manager != q.manager {
      assert PkgKey(Pkg(p.name, p.version, p.manager)) == PkgKey(Pkg(q.name, q.version, q.manager));
      KeyCollisions(p.manager, q.manager);
    } else {
      assert PkgKey(p)[|p.manager| + 1..] == p.name && PkgKey(q)[|p.manager| + 1..] == q.name;
    }
  }
}
