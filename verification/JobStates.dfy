/**
The written job state machine (server/jobs/state.go) and the retry bound
(server/jobs/types.go). The table is the abstract specification: the handlers
in `JobServer` are checked against it in `JobRuns`.
*/
module JobStates {
  datatype Status =
    | Pending | Queued | CdmHold | Dispatched | Acknowledged | Running
    | Completed | Failed | TimedOut | Cancelled

  /** The table `validTransitions`; terminal states have no entry. */
  function ValidTransitions(from: Status): set<Status> {
    match from
    case Pending => {Queued, Cancelled}
    case Queued => {Dispatched, CdmHold, Cancelled}
    case CdmHold => {Dispatched, Cancelled}
    case Dispatched => {Acknowledged, Queued, Cancelled}
    case Acknowledged => {Running, Queued}
    case Running => {Completed, Failed, TimedOut}
    case _ => {}
  }

  predicate ValidateTransition(from: Status, to: Status) {
    to in ValidTransitions(from)
  }

  predicate IsTerminal(s: Status) {
    s == Completed || s == Failed || s == TimedOut || s == Cancelled
  }

  predicate IsCancellable(s: Status) {
    s in [Pending, Queued, CdmHold, Dispatched]
  }

  predicate IsRetryable(s: Status) {
    s == Failed || s == TimedOut
  }

  predicate ShouldRetry(s: Status, retryCount: int, maxRetries: int) {
    IsRetryable(s) && retryCount < maxRetries
  }

  /** `to` can be reached from `from` along exactly `n` edges of the table. */
  ghost predicate Path(from: Status, to: Status, n: nat)
    decreases n
  {
    if n == 0 then from == to
    else exists mid :: ValidateTransition(from, mid) && Path(mid, to, n - 1)
  }

  /** One or two edges: what a single status write is allowed to skip over. */
  ghost predicate ShortPath(from: Status, to: Status) {
    Path(from, to, 1) || Path(from, to, 2)
  }

  lemma EdgeIsShort(from: Status, to: Status)
    requires ValidateTransition(from, to)
    ensures ShortPath(from, to)
  {
    assert Path(to, to, 0);
  }

  lemma TwoEdgesAreShort(from: Status, mid: Status, to: Status)
    requires ValidateTransition(from, mid) && ValidateTransition(mid, to)
    ensures ShortPath(from, to)
  {
    assert Path(to, to, 0);
    assert Path(mid, to, 1);
  }

  /** The table, edge by edge. */
  lemma EdgesExactly(from: Status, to: Status)
    ensures ValidateTransition(from, to) <==>
            (from, to) in {(Pending, Queued), (Pending, Cancelled),
                           (Queued, Dispatched), (Queued, CdmHold), (Queued, Cancelled),
                           (CdmHold, Dispatched), (CdmHold, Cancelled),
                           (Dispatched, Acknowledged), (Dispatched, Queued), (Dispatched, Cancelled),
                           (Acknowledged, Running), (Acknowledged, Queued),
                           (Running, Completed), (Running, Failed), (Running, TimedOut)}
  {
  }

  /** How far a job has come: not yet acknowledged, acknowledged, finished. */
  function Stage(s: Status): nat {
    if IsTerminal(s) then 2
    else if s == Acknowledged || s == Running then 1
    else 0
  }

  /** Terminal states are exactly the dead ends of the table. */
  lemma TerminalIsDeadEnd(s: Status)
    ensures IsTerminal(s) <==> forall to :: !ValidateTransition(s, to)
  {
    assert !IsTerminal(s) ==>
      ValidateTransition(s, Cancelled) || ValidateTransition(s, Queued) || ValidateTransition(s, Completed);
  }

  /** Which starting states reach `failed` within two edges of the table. */
  lemma ShortPathToFailed(s: Status)
    ensures ShortPath(s, Failed) <==> s == Acknowledged || s == Running
  {
    if s == Running {
      EdgeIsShort(s, Failed);
    } else if s == Acknowledged {
      TwoEdgesAreShort(s, Running, Failed);
    }
  }
}
