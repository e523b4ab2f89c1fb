/** Automatic retries of a job form a bounded chain, in every run. */
module JobRetries {
  import opened JobServer
  import opened JobRuns

  /** `b` is the k-th automatic retry of `a`. */
  ghost predicate RetryOf(db: Db, a: JobId, b: JobId, k: nat)
    decreases k
  {
    if k == 0 then a == b
    else exists i :: 0 <= i < |db.autoRetries| && db.autoRetries[i].1 == b && RetryOf(db, a, db.autoRetries[i].0, k - 1)
  }

  ghost predicate IsDescendant(db: Db, a: JobId, b: JobId) {
    exists k: nat :: 0 < k && RetryOf(db, a, b, k)
  }

  ghost function Descendants(db: Db, a: JobId): set<JobId> {
    set b | b in db.jobs && IsDescendant(db, a, b)
  }

  /** Along a chain of automatic retries the count rises by one and never passes the maximum. */
  lemma {:induction false} RetryCounts(db: Db, a: JobId, b: JobId, k: nat)
    requires Inv(db) && a in db.jobs && RetryOf(db, a, b, k)
    ensures b in db.jobs
    ensures db.jobs[b].retryCount == db.jobs[a].retryCount + k
    ensures db.jobs[b].maxRetries == db.jobs[a].maxRetries
    ensures k > 0 ==> db.jobs[b].retryCount <= db.jobs[a].maxRetries
    decreases k
  {
    if k > 0 {
      var i :| 0 <= i < |db.autoRetries| && db.autoRetries[i].1 == b && RetryOf(db, a, db.autoRetries[i].0, k - 1);
      RetryCounts(db, a, db.autoRetries[i].0, k - 1);
      assert RetryOk(db.jobs, db.autoRetries[i]);
    }
  }

  lemma OneChildEach(db: Db, i: nat, m: nat)
    requires Inv(db) && i < |db.autoRetries| && m < |db.autoRetries| && db.autoRetries[i].0 == db.autoRetries[m].0
    ensures i == m
  {
  }

  /** They form a chain: a job has one k-th automatic retry at most. */
  lemma {:induction false} RetryUnique(db: Db, a: JobId, b: JobId, c: JobId, k: nat)
    requires Inv(db) && RetryOf(db, a, b, k) && RetryOf(db, a, c, k)
    ensures b == c
    decreases k
  {
    hide Inv;
    if k > 0 {
      var i :| 0 <= i < |db.autoRetries| && db.autoRetries[i].1 == b && RetryOf(db, a, db.autoRetries[i].0, k - 1);
      var m :| 0 <= m < |db.autoRetries| && db.autoRetries[m].1 == c && RetryOf(db, a, db.autoRetries[m].0, k - 1);
      RetryUnique(db, a, db.autoRetries[i].0, db.autoRetries[m].0, k - 1);
      OneChildEach(db, i, m);
    }
  }

  /** A set of jobs with distinct retry counts in (lo, hi] has at most hi - lo members. */
  lemma {:induction false} CountsBound(db: Db, s: set<JobId>, lo: int, hi: int)
    requires s <= db.jobs.Keys
    requires forall b :: b in s ==> lo < db.jobs[b].retryCount <= hi
    requires forall b, c :: b in s && c in s && db.jobs[b].retryCount == db.jobs[c].retryCount ==> b == c
    ensures |s| <= if lo < hi then hi - lo else 0
    decreases hi - lo
  {
    if lo >= hi {
      assert s == {};
    } else if b :| b in s && db.jobs[b].retryCount == hi {
      CountsBound(db, s - {b}, lo, hi - 1);
    } else {
      CountsBound(db, s, lo, hi - 1);
    }
  }

  lemma DescendantCounts(db: Db, a: JobId, b: JobId) returns (k: nat)
    requires Inv(db) && a in db.jobs && IsDescendant(db, a, b)
    ensures RetryOf(db, a, b, k) && b in db.jobs
    ensures db.jobs[a].retryCount < db.jobs[b].retryCount == db.jobs[a].retryCount + k <= db.jobs[a].maxRetries
  {
    hide Inv;
    k :| 0 < k && RetryOf(db, a, b, k);
    RetryCounts(db, a, b, k);
  }

  /** Automatic descendants are told apart by their retry count. */
  lemma DescendantsDistinct(db: Db, a: JobId, b: JobId, c: JobId)
    requires Inv(db) && a in db.jobs && IsDescendant(db, a, b) && IsDescendant(db, a, c)
    ensures b in db.jobs && c in db.jobs
    ensures db.jobs[b].retryCount == db.jobs[c].retryCount ==> b == c
  {
    hide Inv, IsDescendant, RetryOf;
    var k := DescendantCounts(db, a, b);
    var m := DescendantCounts(db, a, c);
    if k == m {
      RetryUnique(db, a, b, c, k);
    }
  }

  lemma DescendantsBounded(db: Db, a: JobId)
    requires Inv(db) && a in db.jobs
    ensures |Descendants(db, a)| <=
              var left := db.jobs[a].maxRetries - db.jobs[a].retryCount; if left > 0 then left else 0
  {
    hide Inv, IsDescendant, RetryOf;
    var s := Descendants(db, a);
    forall b | b in s ensures db.jobs[a].retryCount < db.jobs[b].retryCount <= db.jobs[a].maxRetries {
      var _ := DescendantCounts(db, a, b);
    }
    forall b, c | b in s && c in s ensures db.jobs[b].retryCount == db.jobs[c].retryCount ==> b == c {
      DescendantsDistinct(db, a, b, c);
    }
    CountsBound(db, s, db.jobs[a].retryCount, db.jobs[a].maxRetries);
  }

  /**
  Retry termination: at any point of any run, manual retries included, a job has
  at most max_retries - retry_count automatic descendants (none if that is negative).
  */
  lemma RetriesBounded(dbs: seq<Db>, es: seq<Event>, n: nat, a: JobId)
    requires IsRun(dbs, es) && n <= |es| && a in dbs[n].jobs
    ensures |Descendants(dbs[n], a)| <=
              var left := dbs[n].jobs[a].maxRetries - dbs[n].jobs[a].retryCount; if left > 0 then left else 0
  {
    InvAlways(dbs, es, n);
    hide IsRun;
    DescendantsBounded(dbs[n], a);
  }

  /** The history records exactly the automatic retries that happened. */
  lemma {:induction false} HistoryExact(dbs: seq<Db>, es: seq<Event>, n: nat, r: (JobId, JobId))
    requires IsRun(dbs, es) && n <= |es|
    ensures r in dbs[n].autoRetries <==>
            exists i :: 0 <= i < n && AutoRetried(dbs[i], es[i]) && (es[i].id, es[i].child) == r
  {
    if n > 0 {
      HistoryExact(dbs, es, n - 1, r);
      assert dbs[n].autoRetries == if AutoRetried(dbs[n - 1], es[n - 1])
                                   then dbs[n - 1].autoRetries + [(es[n - 1].id, es[n - 1].child)]
                                   else dbs[n - 1].autoRetries;
      hide AutoRetried, Next;
    }
  }
}
