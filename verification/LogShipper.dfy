/**
The agent's log shipper (agent/logshipper/shipper.go): a bounded buffer, adders
on any goroutine, and one flusher that gives the lock up while a batch is on the
wire. `handed` and `lost` record what became of the entries.
*/
module LogShipper {
  const MAX_BATCH := 500
  const MAX_BUFFER := 5000

  datatype Entry = Entry(timestamp: int, level: string, message: string)

  datatype Shipper = Shipper(added: seq<Entry>, handed: seq<Entry>, inflight: seq<Entry>, buffer: seq<Entry>,
                             lost: seq<Entry>)

  /** A reply below 500; a transport error or a reply of 500 and above; a batch that could not be encoded. */
  datatype Outcome = Accepted | Refused | Unencodable

  datatype Step = Add(entry: Entry) | Take | Settle(outcome: Outcome)

  const INITIAL := Shipper([], [], [], [], [])

  function Min(a: nat, b: nat): nat {
    if a < b then a else b
  }

  /** The flusher is sequential: it takes a batch only when none is on the wire. */
  predicate CanStep(s: Shipper, step: Step) {
    match step
    case Add(_) => true
    case Take => s.inflight == []
    case Settle(_) => s.inflight != []
  }

  function Next(s: Shipper, step: Step): Shipper {
    match step
    case Add(e) =>
      if |s.buffer| >= MAX_BUFFER then s.(added := s.added + [e], lost := s.lost + [e])
      else s.(added := s.added + [e], buffer := s.buffer + [e])
    case Take =>
      var n := Min(|s.buffer|, MAX_BATCH);
      s.(inflight := s.buffer[..n], buffer := s.buffer[n..])
    case Settle(Accepted) => s.(handed := s.handed + s.inflight, inflight := [])
    case Settle(Unencodable) => s.(lost := s.lost + s.inflight, inflight := [])
    case Settle(Refused) =>
      var all := s.inflight + s.buffer;
      var n := Min(|all|, MAX_BUFFER);
      s.(inflight := [], buffer := all[..n], lost := s.lost + all[n..])
  }

  class LogBuffer {
    var buffer: seq<Entry>
    var batch: seq<Entry>
    ghost var added: seq<Entry>
    ghost var handed: seq<Entry>
    ghost var lost: seq<Entry>

    constructor ()
      ensures View() == INITIAL
    {
      buffer, batch, added, handed, lost := [], [], [], [], [];
    }

    ghost function View(): Shipper
      reads this
    {
      Shipper(added, handed, batch, buffer, lost)
    }

    method Add(entry: Entry)
      modifies this
      ensures View() == Next(old(View()), Step.Add(entry))
      ensures buffer == if |old(buffer)| >= 5000 then old(buffer) else old(buffer) + [entry]
      ensures batch == old(batch)
    {
      added := added + [entry];
      if |buffer| >= MAX_BUFFER {
        lost := lost + [entry];
        return;
      }
      buffer := buffer + [entry];
    }

    /** First critical section of flush. */
    method TakeBatch() returns (empty: bool)
      requires batch == []
      modifies this
      ensures View() == Next(old(View()), Take)
      ensures empty <==> old(buffer) == []
      ensures batch + buffer == old(buffer) && |batch| == if |old(buffer)| > 500 then 500 else |old(buffer)|
    {
      if |buffer| == 0 {
        return true;
      }
      var n := |buffer|;
      if n > MAX_BATCH {
        n := MAX_BATCH;
      }
      batch := buffer[..n];
      buffer := buffer[n..];
      return false;
    }

    /** The rest of flush, once the request has ended. */
    method FinishFlush(outcome: Outcome)
      requires batch != []
      modifies this
      ensures View() == Next(old(View()), Settle(outcome))
      ensures batch == [] && (!outcome.Refused? ==> buffer == old(buffer))
      ensures outcome.Refused? ==>
                buffer <= old(batch) + old(buffer) &&
                |buffer| == if |old(batch) + old(buffer)| > 5000 then 5000 else |old(batch) + old(buffer)|
    {
      match outcome {
        case Unencodable =>
          lost := lost + batch;
        case Refused =>
          buffer := batch + buffer;
          if |buffer| > MAX_BUFFER {
            lost := lost + buffer[MAX_BUFFER..];
            buffer := buffer[..MAX_BUFFER];
          }
        case Accepted =>
          handed := handed + batch;
      }
      batch := [];
    }
  }

  // ----- subsequences -----

  /** `a` is `b` with some entries left out; each entry of `b` is used at most once, in order. */
  ghost predicate Subsequence(a: seq<Entry>, b: seq<Entry>)
    decreases |b|
  {
    if a == [] then true
    else if b == [] then false
    else
      || (a[|a| - 1] == b[|b| - 1] && Subsequence(a[..|a| - 1], b[..|b| - 1]))
      || Subsequence(a, b[..|b| - 1])
  }

  lemma SubsequenceAppend(a: seq<Entry>, b: seq<Entry>, e: Entry)
    requires Subsequence(a, b)
    ensures Subsequence(a + [e], b + [e]) && Subsequence(a, b + [e])
  {
    assert (a + [e])[..|a|] == a && (b + [e])[..|b|] == b;
  }

  /** Leaving out one more entry. */
  lemma {:induction false} SubsequenceDrop(a: seq<Entry>, b: seq<Entry>, i: nat)
    requires Subsequence(a, b) && i < |a|
    ensures Subsequence(a[..i] + a[i + 1..], b)
    decreases |b|
  {
    var a', init := a[..i] + a[i + 1..], b[..|b| - 1];
    if a[|a| - 1] == b[|b| - 1] && Subsequence(a[..|a| - 1], init) {
      if i == |a| - 1 {
        assert a' == a[..|a| - 1];
        SubsequenceWeaken(a', init, b);
      } else {
        SubsequenceDrop(a[..|a| - 1], init, i);
        assert a'[..|a'| - 1] == a[..|a| - 1][..i] + a[..|a| - 1][i + 1..];
      }
    } else {
      SubsequenceDrop(a, init, i);
      SubsequenceWeaken(a', init, b);
    }
  }

  lemma SubsequenceWeaken(a: seq<Entry>, init: seq<Entry>, b: seq<Entry>)
    requires b != [] && init == b[..|b| - 1] && Subsequence(a, init)
    ensures Subsequence(a, b)
  {
  }

  /** Leaving out a stretch. */
  lemma {:induction false} SubsequenceCut(a: seq<Entry>, mid: seq<Entry>, c: seq<Entry>, b: seq<Entry>)
    requires Subsequence(a + mid + c, b)
    ensures Subsequence(a + c, b)
    decreases |mid|
  {
    if mid == [] {
      assert a + mid + c == a + c;
    } else {
      var all := a + mid + c;
      SubsequenceDrop(all, b, |a|);
      assert all[..|a|] + all[|a| + 1..] == a + mid[1..] + c;
      SubsequenceCut(a, mid[1..], c, b);
    }
  }

  lemma {:induction false} SubsequenceLength(a: seq<Entry>, b: seq<Entry>)
    requires Subsequence(a, b)
    ensures |a| <= |b| && (|a| == |b| ==> a == b)
    decreases |b|
  {
    if a != [] {
      var init := b[..|b| - 1];
      if a[|a| - 1] == b[|b| - 1] && Subsequence(a[..|a| - 1], init) {
        SubsequenceLength(a[..|a| - 1], init);
      } else {
        SubsequenceLength(a, init);
      }
    }
  }

  // ----- conservation -----

  function Kept(s: Shipper): seq<Entry> {
    s.handed + s.inflight + s.buffer
  }

  ghost predicate Inv(s: Shipper) {
    && |s.buffer| <= 5000 && |s.inflight| <= 500
    && Subsequence(Kept(s), s.added)
    && multiset(Kept(s)) + multiset(s.lost) == multiset(s.added)
  }

  /** One more entry, kept or lost. */
  lemma GrowEnd(kept: seq<Entry>, lost: seq<Entry>, added: seq<Entry>, e: Entry)
    requires Subsequence(kept, added) && multiset(kept) + multiset(lost) == multiset(added)
    ensures Subsequence(kept + [e], added + [e]) && Subsequence(kept, added + [e])
    ensures multiset(kept + [e]) + multiset(lost) == multiset(added + [e])
    ensures multiset(kept) + multiset(lost + [e]) == multiset(added + [e])
  {
    SubsequenceAppend(kept, added, e);
  }

  lemma AddKeeps(s: Shipper, e: Entry)
    requires Inv(s)
    ensures Inv(Next(s, Add(e)))
  {
    hide Subsequence;
    GrowEnd(Kept(s), s.lost, s.added, e);
    assert s.handed + s.inflight + (s.buffer + [e]) == Kept(s) + [e];
  }

  lemma TakeKeeps(s: Shipper)
    requires Inv(s) && CanStep(s, Take)
    ensures Inv(Next(s, Take))
  {
    var n := Min(|s.buffer|, MAX_BATCH);
    assert s.buffer[..n] + s.buffer[n..] == s.buffer;
    assert Kept(Next(s, Take)) == Kept(s);
  }

  lemma AcceptKeeps(s: Shipper)
    requires Inv(s)
    ensures Inv(Next(s, Settle(Accepted)))
  {
    assert Kept(Next(s, Settle(Accepted))) == Kept(s);
  }

  lemma UnencodableKeeps(s: Shipper)
    requires Inv(s)
    ensures Inv(Next(s, Settle(Unencodable)))
  {
    SubsequenceCut(s.handed, s.inflight, s.buffer, s.added);
    assert Kept(Next(s, Settle(Unencodable))) == s.handed + s.buffer;
  }

  /** Losing the end of what is kept. */
  lemma CutEnd(front: seq<Entry>, cut: seq<Entry>, lost: seq<Entry>, added: seq<Entry>)
    requires Subsequence(front + cut, added)
    requires multiset(front + cut) + multiset(lost) == multiset(added)
    ensures Subsequence(front, added)
    ensures multiset(front) + multiset(lost + cut) == multiset(added)
  {
    assert front + cut + [] == front + cut && front + [] == front;
    SubsequenceCut(front, cut, [], added);
  }

  lemma KeptSplit(handed: seq<Entry>, inflight: seq<Entry>, buffer: seq<Entry>, n: nat)
    requires n <= |inflight + buffer|
    ensures var all := inflight + buffer;
            handed + inflight + buffer == (handed + all[..n]) + all[n..] && handed + [] + all[..n] == handed + all[..n]
  {
  }

  lemma RefuseKeeps(s: Shipper)
    requires Inv(s)
    ensures Inv(Next(s, Settle(Refused)))
  {
    var all, s' := s.inflight + s.buffer, Next(s, Settle(Refused));
    var n := Min(|all|, MAX_BUFFER);
    KeptSplit(s.handed, s.inflight, s.buffer, n);
    assert s' == s.(inflight := [], buffer := all[..n], lost := s.lost + all[n..]);
    hide Subsequence, Next;
    CutEnd(s.handed + all[..n], all[n..], s.lost, s.added);
  }

  ghost predicate IsRun(ss: seq<Shipper>, steps: seq<Step>) {
    && |ss| == |steps| + 1 && ss[0] == INITIAL
    && forall i :: 0 <= i < |steps| ==> CanStep(ss[i], steps[i]) && ss[i + 1] == Next(ss[i], steps[i])
  }

  /**
  For every interleaving of adders with the flusher: what was handed off, is on
  the wire or waits in the buffer is an ordered selection of the added entries;
  with the lost ones it accounts for each of them; and nothing lost means that
  it is all of them, in order.
  */
  lemma {:induction false} LogConservation(ss: seq<Shipper>, steps: seq<Step>, n: nat)
    requires IsRun(ss, steps) && n <= |steps|
    ensures Inv(ss[n])
    ensures ss[n].lost == [] ==> ss[n].handed + ss[n].inflight + ss[n].buffer == ss[n].added
  {
    if n > 0 {
      LogConservation(ss, steps, n - 1);
      match steps[n - 1]
      case Add(e) => AddKeeps(ss[n - 1], e);
      case Take => TakeKeeps(ss[n - 1]);
      case Settle(Accepted) => AcceptKeeps(ss[n - 1]);
      case Settle(Unencodable) => UnencodableKeeps(ss[n - 1]);
      case Settle(Refused) => RefuseKeeps(ss[n - 1]);
    }
    SubsequenceLength(Kept(ss[n]), ss[n].added);
    if ss[n].lost == [] {
      assert |multiset(Kept(ss[n]))| == |multiset(ss[n].added)|;
    }
  }

  /** Entries are lost exactly when the buffer is full at an add, a batch does not fit back, or cannot be encoded. */
  lemma LossExactly(s: Shipper, step: Step)
    requires Inv(s) && CanStep(s, step)
    ensures Next(s, step).lost != s.lost <==>
            || (step.Add? && |s.buffer| == MAX_BUFFER)
            || step == Settle(Unencodable)
            || (step == Settle(Refused) && |s.inflight| + |s.buffer| > MAX_BUFFER)
  {
  }
}
