/**
Applying a computed delta to a table that shows the old snapshot yields a table
that shows the new one, and nothing else changes.
*/
module InventoryRoundTrip {
  import opened Wrappers
  import opened Inventory

  /** The versions a table holds for one package of one device, one per row. */
  function Versions(t: seq<Row>, device: DeviceId, name: string, manager: string): seq<string> {
    if t == [] then []
    else
      var r := t[|t| - 1];
      Versions(t[..|t| - 1], device, name, manager) +
      if r.device == device && r.pkg.name == name && r.pkg.manager == manager then [r.pkg.version] else []
  }

  /** The version the snapshot holds for a package, at most one. */
  function Expected(m: map<string, Pkg>, name: string, manager: string): seq<string> {
    var key := manager + ":" + name;
    if key in m && m[key].name == name && m[key].manager == manager then [m[key].version] else []
  }

  /** The device's rows are exactly the snapshot: one row per package, nothing else. */
  ghost predicate Shows(t: seq<Row>, device: DeviceId, m: map<string, Pkg>) {
    forall name, manager :: Versions(t, device, name, manager) == Expected(m, name, manager)
  }

  ghost predicate Clean(m: map<string, Pkg>) {
    Keyed(m) && forall k :: k in m ==> ColonFree(m[k].manager)
  }

  predicate Names(p: Pkg, name: string, manager: string) {
    p.name == name && p.manager == manager
  }

  ghost predicate Mentions(ps: seq<Pkg>, name: string, manager: string) {
    exists i :: 0 <= i < |ps| && Names(ps[i], name, manager)
  }

  lemma MentionsSnoc(ps: seq<Pkg>, name: string, manager: string)
    requires ps != []
    ensures Mentions(ps, name, manager) <==>
            Mentions(ps[..|ps| - 1], name, manager) || Names(ps[|ps| - 1], name, manager)
  {
    var init := ps[..|ps| - 1];
    if Mentions(init, name, manager) {
      var i :| 0 <= i < |init| && Names(init[i], name, manager);
      assert Names(ps[i], name, manager);
    }
    if i :| 0 <= i < |ps| && Names(ps[i], name, manager) {
      if i < |init| {
        assert Names(init[i], name, manager);
      }
    }
  }

  // ----- one statement -----

  lemma VersionsSnoc(t: seq<Row>, r: Row, device: DeviceId, name: string, manager: string)
    ensures Versions(t + [r], device, name, manager) ==
            Versions(t, device, name, manager) +
            if r.device == device && Names(r.pkg, name, manager) then [r.pkg.version] else []
  {
    assert (t + [r])[..|t|] == t;
  }

  /** A package that was absent gains its one row; all others are as before. */
  lemma {:induction false} InsertVersions(t: seq<Row>, device: DeviceId, ps: seq<Pkg>, d: DeviceId, name: string,
                                          manager: string)
    requires DistinctKeys(ps)
    ensures d != device || !Mentions(ps, name, manager) ==>
              Versions(InsertAll(t, device, ps), d, name, manager) == Versions(t, d, name, manager)
    ensures forall i :: d == device && 0 <= i < |ps| && Names(ps[i], name, manager) ==>
              Versions(InsertAll(t, device, ps), d, name, manager) == Versions(t, d, name, manager) + [ps[i].version]
  {
    if ps != [] {
      var init, p := ps[..|ps| - 1], ps[|ps| - 1];
      InsertVersions(t, device, init, d, name, manager);
      VersionsSnoc(InsertAll(t, device, init), Row(device, p), d, name, manager);
      MentionsSnoc(ps, name, manager);
      if i :| 0 <= i < |init| && Names(init[i], name, manager) {
        assert PkgKey(ps[i]) != PkgKey(p);
      }
      forall i | d == device && 0 <= i < |ps| && Names(ps[i], name, manager)
        ensures Versions(InsertAll(t, device, ps), d, name, manager) == Versions(t, d, name, manager) + [ps[i].version]
      {
        if i < |init| {
          assert Names(init[i], name, manager);
        } else {
          assert !Mentions(init, name, manager);
        }
      }
    }
  }

  lemma {:induction false} UpdateOneVersions(t: seq<Row>, device: DeviceId, p: Pkg, d: DeviceId, name: string,
                                             manager: string)
    ensures |Versions(UpdateOne(t, device, p), d, name, manager)| == |Versions(t, d, name, manager)|
    ensures d != device || !Names(p, name, manager) ==>
              Versions(UpdateOne(t, device, p), d, name, manager) == Versions(t, d, name, manager)
    ensures d == device && Names(p, name, manager) ==>
              forall i :: 0 <= i < |Versions(t, d, name, manager)| ==>
                Versions(UpdateOne(t, device, p), d, name, manager)[i] == p.version
  {
    if t != [] {
      var init, r := t[..|t| - 1], t[|t| - 1];
      UpdateOneVersions(init, device, p, d, name, manager);
      VersionsSnoc(UpdateOne(init, device, p), if Matches(r, device, p) then Row(device, p) else r, d, name, manager);
    }
  }

  lemma {:induction false} DeleteOneVersions(t: seq<Row>, device: DeviceId, p: Pkg, d: DeviceId, name: string,
                                             manager: string)
    ensures Versions(DeleteOne(t, device, p), d, name, manager) ==
            if d == device && Names(p, name, manager) then [] else Versions(t, d, name, manager)
  {
    if t != [] {
      var init, r := t[..|t| - 1], t[|t| - 1];
      DeleteOneVersions(init, device, p, d, name, manager);
      if Matches(r, device, p) {
        assert DeleteOne(t, device, p) == DeleteOne(init, device, p);
      } else {
        VersionsSnoc(DeleteOne(init, device, p), r, d, name, manager);
      }
    }
  }

  // ----- whole lists -----

  lemma {:induction false} UpdateVersions(t: seq<Row>, device: DeviceId, ps: seq<Pkg>, d: DeviceId, name: string,
                                          manager: string)
    requires DistinctKeys(ps)
    ensures |Versions(UpdateAll(t, device, ps), d, name, manager)| == |Versions(t, d, name, manager)|
    ensures d != device || !Mentions(ps, name, manager) ==>
              Versions(UpdateAll(t, device, ps), d, name, manager) == Versions(t, d, name, manager)
    ensures forall i, k :: d == device && 0 <= i < |ps| && Names(ps[i], name, manager) &&
                           0 <= k < |Versions(t, d, name, manager)| ==>
              Versions(UpdateAll(t, device, ps), d, name, manager)[k] == ps[i].version
  {
    if ps != [] {
      var init, p := ps[..|ps| - 1], ps[|ps| - 1];
      UpdateVersions(t, device, init, d, name, manager);
      UpdateOneVersions(UpdateAll(t, device, init), device, p, d, name, manager);
      MentionsSnoc(ps, name, manager);
      forall i, k | d == device && 0 <= i < |ps| && Names(ps[i], name, manager)
                    && 0 <= k < |Versions(t, d, name, manager)|
        ensures Versions(UpdateAll(t, device, ps), d, name, manager)[k] == ps[i].version
      {
        if i < |init| {
          assert Names(init[i], name, manager) && PkgKey(ps[i]) != PkgKey(p);
        }
      }
    }
  }

  lemma {:induction false} DeleteVersions(t: seq<Row>, device: DeviceId, ps: seq<Pkg>, d: DeviceId, name: string,
                                          manager: string)
    ensures Versions(DeleteAll(t, device, ps), d, name, manager) ==
            if d == device && Mentions(ps, name, manager) then [] else Versions(t, d, name, manager)
  {
    if ps != [] {
      var init, p := ps[..|ps| - 1], ps[|ps| - 1];
      DeleteVersions(t, device, init, d, name, manager);
      DeleteOneVersions(DeleteAll(t, device, init), device, p, d, name, manager);
      MentionsSnoc(ps, name, manager);
    }
  }

  // ----- the delta -----

  lemma ExpectedExactly(m: map<string, Pkg>, name: string, manager: string)
    requires Clean(m)
    ensures Expected(m, name, manager) != [] <==> ColonFree(manager) && PkgKey(Pkg(name, "", manager)) in m
  {
    var key := PkgKey(Pkg(name, "", manager));
    if ColonFree(manager) && key in m {
      KeyInjective(m[key], Pkg(name, "", manager));
    }
  }

  lemma Mentioned(ps: seq<Pkg>, name: string, manager: string) returns (i: nat)
    requires Mentions(ps, name, manager)
    ensures i < |ps| && Names(ps[i], name, manager)
  {
    i :| 0 <= i < |ps| && Names(ps[i], name, manager);
  }

  lemma InMentions(ps: seq<Pkg>, p: Pkg)
    requires p in ps
    ensures Mentions(ps, p.name, p.manager)
  {
    var i :| 0 <= i < |ps| && ps[i] == p;
    assert Names(ps[i], p.name, p.manager);
  }

  /** A package is listed as added exactly if only the new snapshot has it, and with the new version. */
  lemma AddedExactly(before: map<string, Pkg>, after: map<string, Pkg>, delta: Delta, name: string, manager: string)
    requires Clean(before) && Clean(after) && IsDelta(before, after, delta)
    ensures Mentions(delta.added, name, manager) <==>
              Expected(before, name, manager) == [] && Expected(after, name, manager) != []
    ensures forall i :: 0 <= i < |delta.added| && Names(delta.added[i], name, manager) ==>
              Expected(after, name, manager) == [delta.added[i].version]
  {
    ExpectedExactly(before, name, manager);
    ExpectedExactly(after, name, manager);
    forall i | 0 <= i < |delta.added| && Names(delta.added[i], name, manager)
      ensures Expected(before, name, manager) == [] && Expected(after, name, manager) == [delta.added[i].version]
    {
      assert IsAdded(before, after, delta.added[i]);
    }
    var key := PkgKey(Pkg(name, "", manager));
    if Expected(before, name, manager) == [] && Expected(after, name, manager) != [] {
      assert IsAdded(before, after, after[key]);
      InMentions(delta.added, after[key]);
    }
  }

  lemma UpdatedExactly(before: map<string, Pkg>, after: map<string, Pkg>, delta: Delta, name: string, manager: string)
    requires Clean(before) && Clean(after) && IsDelta(before, after, delta)
    ensures Mentions(delta.updated, name, manager) <==>
              Expected(before, name, manager) != [] && Expected(after, name, manager) != [] &&
              Expected(before, name, manager) != Expected(after, name, manager)
    ensures forall i :: 0 <= i < |delta.updated| && Names(delta.updated[i], name, manager) ==>
              Expected(after, name, manager) == [delta.updated[i].version]
  {
    ExpectedExactly(before, name, manager);
    ExpectedExactly(after, name, manager);
    forall i | 0 <= i < |delta.updated| && Names(delta.updated[i], name, manager)
      ensures Expected(before, name, manager) != [] && Expected(after, name, manager) == [delta.updated[i].version]
      ensures Expected(before, name, manager) != Expected(after, name, manager)
    {
      assert IsUpdated(before, after, delta.updated[i]);
    }
    var key := PkgKey(Pkg(name, "", manager));
    if Expected(before, name, manager) != [] && Expected(after, name, manager) != [] &&
       Expected(before, name, manager) != Expected(after, name, manager) {
      assert IsUpdated(before, after, after[key]);
      InMentions(delta.updated, after[key]);
    }
  }

  lemma RemovedExactly(before: map<string, Pkg>, after: map<string, Pkg>, delta: Delta, name: string, manager: string)
    requires Clean(before) && Clean(after) && IsDelta(before, after, delta)
    ensures Mentions(delta.removed, name, manager) <==>
              Expected(before, name, manager) != [] && Expected(after, name, manager) == []
  {
    ExpectedExactly(before, name, manager);
    ExpectedExactly(after, name, manager);
    if i :| 0 <= i < |delta.removed| && Names(delta.removed[i], name, manager) {
      assert IsRemoved(before, after, delta.removed[i]);
    }
    var key := PkgKey(Pkg(name, "", manager));
    if Expected(before, name, manager) != [] && Expected(after, name, manager) == [] {
      assert IsRemoved(before, after, before[key]);
      InMentions(delta.removed, before[key]);
    }
  }

  function FirstOf(a: seq<string>, b: seq<string>): seq<string> {
    if a != [] then a else b
  }

  lemma AfterInserts(t: seq<Row>, device: DeviceId, before: map<string, Pkg>, after: map<string, Pkg>, delta: Delta,
                     name: string, manager: string)
    requires Clean(before) && Clean(after) && IsDelta(before, after, delta)
    requires Versions(t, device, name, manager) == Expected(before, name, manager)
    ensures Versions(InsertAll(t, device, delta.added), device, name, manager) ==
            FirstOf(Expected(before, name, manager), Expected(after, name, manager))
  {
    hide InsertAll, Versions, Clean, Expected, Mentions;
    assert DistinctKeys(delta.added);
    InsertVersions(t, device, delta.added, device, name, manager);
    AddedExactly(before, after, delta, name, manager);
    if Mentions(delta.added, name, manager) {
      var _ := Mentioned(delta.added, name, manager);
    }
  }

  lemma AfterUpdates(t: seq<Row>, device: DeviceId, before: map<string, Pkg>, after: map<string, Pkg>, delta: Delta,
                     name: string, manager: string)
    requires Clean(before) && Clean(after) && IsDelta(before, after, delta)
    requires Versions(t, device, name, manager) ==
             FirstOf(Expected(before, name, manager), Expected(after, name, manager))
    ensures Versions(UpdateAll(t, device, delta.updated), device, name, manager) ==
            FirstOf(Expected(after, name, manager), Expected(before, name, manager))
  {
    assert |Expected(before, name, manager)| <= 1 && |Expected(after, name, manager)| <= 1;
    hide UpdateAll, Versions, Clean, Expected, Mentions;
    assert DistinctKeys(delta.updated);
    UpdateVersions(t, device, delta.updated, device, name, manager);
    UpdatedExactly(before, after, delta, name, manager);
    if Mentions(delta.updated, name, manager) {
      var i := Mentioned(delta.updated, name, manager);
      assert Versions(UpdateAll(t, device, delta.updated), device, name, manager)[0] == delta.updated[i].version;
    }
  }

  /** What the table shows for one package after the delta. */
  lemma ApplyVersions(t: seq<Row>, device: DeviceId, before: map<string, Pkg>, after: map<string, Pkg>, delta: Delta,
                      name: string, manager: string)
    requires Clean(before) && Clean(after) && IsDelta(before, after, delta) && Shows(t, device, before)
    ensures Versions(Apply(t, device, delta), device, name, manager) == Expected(after, name, manager)
  {
    assert Versions(t, device, name, manager) == Expected(before, name, manager);
    hide InsertAll, UpdateAll, DeleteAll, Versions, Clean, IsDelta, Shows, Expected, Mentions;
    var inserted := InsertAll(t, device, delta.added);
    AfterInserts(t, device, before, after, delta, name, manager);
    AfterUpdates(inserted, device, before, after, delta, name, manager);
    DeleteVersions(UpdateAll(inserted, device, delta.updated), device, delta.removed, device, name, manager);
    RemovedExactly(before, after, delta, name, manager);
  }

  /** The round trip for one delta; rows of other devices are not touched. */
  lemma DeltaRoundTrip(t: seq<Row>, device: DeviceId, before: map<string, Pkg>, after: map<string, Pkg>, delta: Delta)
    requires Clean(before) && Clean(after) && IsDelta(before, after, delta) && Shows(t, device, before)
    ensures Shows(Apply(t, device, delta), device, after)
    ensures forall d, name, manager :: d != device ==>
              Versions(Apply(t, device, delta), d, name, manager) == Versions(t, d, name, manager)
  {
    forall name, manager
      ensures Versions(Apply(t, device, delta), device, name, manager) == Expected(after, name, manager)
    {
      ApplyVersions(t, device, before, after, delta, name, manager);
    }
    forall d, name, manager | d != device
      ensures Versions(Apply(t, device, delta), d, name, manager) == Versions(t, d, name, manager)
    {
      var inserted := InsertAll(t, device, delta.added);
      InsertVersions(t, device, delta.added, d, name, manager);
      UpdateVersions(inserted, device, delta.updated, d, name, manager);
      DeleteVersions(UpdateAll(inserted, device, delta.updated), device, delta.removed, d, name, manager);
    }
  }

  // ----- runs -----

  /** One check-in interval: a collection that may fail, and the delta computed from it, delivered once. */
  datatype Round = Round(collected: Option<seq<Pkg>>, delta: Option<Delta>)

  ghost predicate IsRun(lasts: seq<Option<map<string, Pkg>>>, tables: seq<seq<Row>>, device: DeviceId,
                        rounds: seq<Round>)
  {
    && |lasts| == |tables| == |rounds| + 1
    && forall i :: 0 <= i < |rounds| ==>
         && Computes(lasts[i], rounds[i].collected, lasts[i + 1], rounds[i].delta)
         && tables[i + 1] ==
            if rounds[i].delta.Some? then Apply(tables[i], device, rounds[i].delta.value) else tables[i]
  }

  ghost predicate CleanList(list: seq<Pkg>) {
    forall i :: 0 <= i < |list| ==> ColonFree(list[i].manager)
  }

  lemma {:induction false} SnapshotClean(list: seq<Pkg>)
    requires CleanList(list)
    ensures Clean(Snapshot(list))
  {
    if list != [] {
      SnapshotClean(list[..|list| - 1]);
    }
  }

  /**
  From a table that shows the last snapshot, the server shows the agent's
  snapshot after every run in which each delta is delivered once, in order.
  */
  lemma {:induction false} ServerFollowsAgent(lasts: seq<Option<map<string, Pkg>>>, tables: seq<seq<Row>>,
                                              device: DeviceId, rounds: seq<Round>, n: nat)
    requires IsRun(lasts, tables, device, rounds) && n <= |rounds|
    requires forall i :: 0 <= i < |rounds| && rounds[i].collected.Some? ==> CleanList(rounds[i].collected.value)
    requires lasts[0].Some? && Clean(lasts[0].value) && Shows(tables[0], device, lasts[0].value)
    ensures lasts[n].Some? && Clean(lasts[n].value) && Shows(tables[n], device, lasts[n].value)
  {
    if n > 0 {
      ServerFollowsAgent(lasts, tables, device, rounds, n - 1);
      var round := rounds[n - 1];
      if round.collected.Some? {
        SnapshotClean(round.collected.value);
        var delta := if round.delta.Some? then round.delta.value else EMPTY;
        DeltaRoundTrip(tables[n - 1], device, lasts[n - 1].value, lasts[n].value, delta);
        assert Apply(tables[n - 1], device, EMPTY) == tables[n - 1];
      }
    }
  }
}
