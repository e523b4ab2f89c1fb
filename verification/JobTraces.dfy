/**
Runs as traces: a run of the job protocol is determined by its events, so a
store that records its events carries a run with it.
*/
module JobTraces {
  import opened JobStates
  import opened JobServer
  import opened JobRuns

  /** The tables before, between and after the events. */
  function Tables(es: seq<Event>): seq<Db> {
    seq(|es| + 1, i requires 0 <= i <= |es| => NextAll(EMPTY, es[..i]))
  }

  lemma TraceIsRun(es: seq<Event>)
    requires AllEnabled(EMPTY, es)
    ensures IsRun(Tables(es), es) && Tables(es)[|es|] == NextAll(EMPTY, es)
  {
    hide Next, Enabled;
    forall i | 0 <= i < |es|
      ensures Enabled(Tables(es)[i], es[i]) && Tables(es)[i + 1] == Next(Tables(es)[i], es[i])
    {
      assert es[..i + 1][..i] == es[..i];
    }
    assert es[..0] == [] && es[..|es|] == es;
  }

  lemma {:induction false} RunTable(dbs: seq<Db>, es: seq<Event>, n: nat)
    requires IsRun(dbs, es) && n <= |es|
    ensures dbs[n] == NextAll(EMPTY, es[..n])
  {
    hide Next, Enabled;
    if n > 0 {
      RunTable(dbs, es, n - 1);
      assert es[..n][..n - 1] == es[..n - 1];
    }
  }

  /** Runs are exactly the enabled traces, with the tables the events lead to. */
  lemma RunsAreTraces(dbs: seq<Db>, es: seq<Event>)
    ensures IsRun(dbs, es) <==> AllEnabled(EMPTY, es) && dbs == Tables(es)
  {
    hide Next, Enabled, NextAll;
    if IsRun(dbs, es) {
      forall i | 0 <= i <= |es| ensures dbs[i] == NextAll(EMPTY, es[..i]) {
        RunTable(dbs, es, i);
      }
    }
    if AllEnabled(EMPTY, es) {
      TraceIsRun(es);
    }
  }

  lemma AllEnabledInit(db: Db, es: seq<Event>)
    requires AllEnabled(db, es) && es != []
    ensures AllEnabled(db, es[..|es| - 1]) && Enabled(NextAll(db, es[..|es| - 1]), es[|es| - 1])
  {
    hide Next, Enabled, NextAll;
    var init := es[..|es| - 1];
    forall i | 0 <= i < |init| ensures Enabled(NextAll(db, init[..i]), init[i]) {
      assert init[..i] == es[..i];
    }
  }

  lemma {:induction false} AllEnabledAppend(db: Db, es: seq<Event>, script: seq<Event>)
    requires AllEnabled(db, es) && AllEnabled(NextAll(db, es), script)
    ensures AllEnabled(db, es + script) && NextAll(db, es + script) == NextAll(NextAll(db, es), script)
  {
    hide Next, Enabled, AllEnabled, NextAll;
    if script == [] {
      assert es + script == es;
      NoEvents(NextAll(db, es));
    } else {
      var init, e := script[..|script| - 1], script[|script| - 1];
      AllEnabledInit(NextAll(db, es), script);
      AllEnabledAppend(db, es, init);
      AllEnabledSnoc(db, es + init, e);
      NextAllSnoc(NextAll(db, es), init, e);
      assert es + script == es + init + [e] && script == init + [e];
    }
  }

  lemma TablesPrefix(es: seq<Event>, script: seq<Event>, i: nat)
    requires i <= |es|
    ensures Tables(es + script)[i] == Tables(es)[i]
  {
    assert (es + script)[..i] == es[..i];
  }

  /** A handler's script, enabled where a run stands, extends the run. */
  lemma ScriptExtendsRun(dbs: seq<Db>, es: seq<Event>, script: seq<Event>) returns (dbs': seq<Db>)
    requires IsRun(dbs, es) && AllEnabled(dbs[|es|], script)
    ensures IsRun(dbs', es + script) && dbs'[|es + script|] == NextAll(dbs[|es|], script)
    ensures forall i :: 0 <= i <= |es| ==> dbs'[i] == dbs[i]
  {
    RunsAreTraces(dbs, es);
    TraceIsRun(es);
    AllEnabledAppend(EMPTY, es, script);
    TraceIsRun(es + script);
    dbs' := Tables(es + script);
    assert |dbs| == |es| + 1;
    hide *;
    forall i | 0 <= i <= |es| ensures dbs'[i] == dbs[i] {
      TablesPrefix(es, script, i);
    }
  }

  // ----- what the trace of a store says -----

  /** Some event of the trace was an accepted acknowledgement of the job. */
  ghost predicate WasAcknowledged(es: seq<Event>, id: JobId) {
    exists i :: 0 <= i < |es| && AckAccepted(NextAll(EMPTY, es[..i]), es[i]) && es[i].id == id
  }

  /** Some event of the trace was an accepted result of the job. */
  ghost predicate WasReported(es: seq<Event>, id: JobId) {
    exists i :: 0 <= i < |es| && ResultAccepted(NextAll(EMPTY, es[..i]), es[i]) && es[i].id == id
  }

  lemma FirstAcknowledgement(es: seq<Event>, e: Event)
    requires AllEnabled(EMPTY, es) && Enabled(NextAll(EMPTY, es), e) && AckAccepted(NextAll(EMPTY, es), e)
    ensures !WasAcknowledged(es, e.id)
  {
    hide Next, Enabled, NextAll, AllEnabled, IsRun;
    AllEnabledSnoc(EMPTY, es, e);
    TraceIsRun(es + [e]);
    if i :| 0 <= i < |es| && AckAccepted(NextAll(EMPTY, es[..i]), es[i]) && es[i].id == e.id {
      assert (es + [e])[..i] == es[..i] && (es + [e])[..|es|] == es;
      AcknowledgedAtMostOnce(Tables(es + [e]), es + [e], i, |es|);
    }
  }

  lemma FirstResult(es: seq<Event>, e: Event)
    requires AllEnabled(EMPTY, es) && Enabled(NextAll(EMPTY, es), e) && ResultAccepted(NextAll(EMPTY, es), e)
    ensures !WasReported(es, e.id)
  {
    hide Next, Enabled, NextAll, AllEnabled, IsRun;
    AllEnabledSnoc(EMPTY, es, e);
    TraceIsRun(es + [e]);
    if i :| 0 <= i < |es| && ResultAccepted(NextAll(EMPTY, es[..i]), es[i]) && es[i].id == e.id {
      assert (es + [e])[..i] == es[..i] && (es + [e])[..|es|] == es;
      ResultAcceptedAtMostOnce(Tables(es + [e]), es + [e], i, |es|);
    }
  }
}
