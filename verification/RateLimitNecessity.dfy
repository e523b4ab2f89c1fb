/**
The hypothesis rate * ttl >= burst of `EvictionUnobservable` is exact: for a
whole number of burst tokens, whenever it fails some calls in order are
answered differently with and without eviction.
*/
module RateLimitNecessity {
  import opened RateLimiter

  function Repeat(call: Call, n: nat): seq<Call> {
    if n == 0 then [] else Repeat(call, n - 1) + [call]
  }

  lemma {:induction false} RepeatAt(call: Call, n: nat)
    ensures |Repeat(call, n)| == n && forall i :: 0 <= i < n ==> Repeat(call, n)[i] == call
  {
    if n > 0 {
      RepeatAt(call, n - 1);
    }
  }

  lemma {:induction false} CallsCount(c: Config, cs: seq<Call>)
    ensures Run(c, cs).calls == |cs| % CLEANUP_EVERY
  {
    if cs != [] {
      CallsCount(c, cs[..|cs| - 1]);
    }
  }

  /** Refilling again at the same instant changes nothing. */
  lemma SameInstant(c: Config, m: map<Key, Bucket>, call: Call)
    requires call.key in m && m[call.key].last == call.now && m[call.key].tokens <= c.burst
    ensures Refill(c, m, call) == m[call.key].tokens
  {
    CreditZero(c);
  }

  /** A granted call takes exactly one token, whether or not it triggers a cleanup. */
  lemma OneToken(c: Config, l: Limiter, call: Call)
    requires c.ttl >= 0.0 && Refill(c, l.buckets, call) >= 1.0
    ensures Refill(c, Touch(c, l.buckets, call), call) == Refill(c, l.buckets, call) - 1.0
    ensures Refill(c, Step(c, l, call).buckets, call) == Refill(c, l.buckets, call) - 1.0
  {
    hide Credit;
    SameInstant(c, Touch(c, l.buckets, call), call);
    SameInstant(c, Step(c, l, call).buckets, call);
  }

  lemma RepeatSnoc(c: Config, pre: seq<Call>, call: Call, i: nat)
    requires i > 0
    ensures Plain(c, pre + Repeat(call, i)) == Touch(c, Plain(c, pre + Repeat(call, i - 1)), call)
    ensures Run(c, pre + Repeat(call, i)) == Step(c, Run(c, pre + Repeat(call, i - 1)), call)
  {
    var cs := pre + Repeat(call, i - 1);
    assert pre + Repeat(call, i) == cs + [call] && (cs + [call])[..|cs|] == cs;
  }

  /** A burst at one instant takes one token per call while tokens last. */
  lemma {:induction false} PlainBurst(c: Config, pre: seq<Call>, call: Call, i: nat)
    requires c.ttl >= 0.0 && Refill(c, Plain(c, pre), call) >= i as real
    ensures Refill(c, Plain(c, pre + Repeat(call, i)), call) == Refill(c, Plain(c, pre), call) - i as real
  {
    hide Refill, Touch, Step, Plain;
    if i == 0 {
      assert pre + Repeat(call, 0) == pre;
    } else {
      PlainBurst(c, pre, call, i - 1);
      RepeatSnoc(c, pre, call, i);
      OneToken(c, Limiter(Plain(c, pre + Repeat(call, i - 1)), 0), call);
    }
  }

  lemma {:induction false} EvictingBurst(c: Config, pre: seq<Call>, call: Call, i: nat)
    requires c.ttl >= 0.0 && Refill(c, Run(c, pre).buckets, call) >= i as real
    ensures Refill(c, Run(c, pre + Repeat(call, i)).buckets, call) == Refill(c, Run(c, pre).buckets, call) - i as real
  {
    hide Refill, Touch, Step, Run;
    if i == 0 {
      assert pre + Repeat(call, 0) == pre;
    } else {
      EvictingBurst(c, pre, call, i - 1);
      RepeatSnoc(c, pre, call, i);
      OneToken(c, Run(c, pre + Repeat(call, i - 1)), call);
    }
  }

  /** Calls on another key leave a bucket alone. */
  lemma {:induction false} PlainPadding(c: Config, pre: seq<Call>, call: Call, n: nat, k: Key)
    requires k in Plain(c, pre) && k != call.key
    ensures k in Plain(c, pre + Repeat(call, n)) && Plain(c, pre + Repeat(call, n))[k] == Plain(c, pre)[k]
  {
    hide Plain, Run, Refill, Step;
    if n == 0 {
      assert pre + Repeat(call, 0) == pre;
    } else {
      PlainPadding(c, pre, call, n - 1, k);
      RepeatSnoc(c, pre, call, n);
    }
  }

  /** Drain key 0 at time 0, then let other calls bring the cleanup round at time s. */
  function Prelude(b: nat, s: real): seq<Call> {
    var pad := CLEANUP_EVERY - 1 - b % CLEANUP_EVERY;
    Repeat(Call(0, 0.0), b) + Repeat(Call(1, 0.0), pad) + [Call(1, s)]
  }

  lemma PreludePlain(c: Config, b: nat, s: real)
    requires ConfigOk(c) && c.burst == b as real && b >= 1 && c.ttl >= 0.0 && Credit(c, s) < c.burst
    ensures Refill(c, Plain(c, Prelude(b, s)), Call(0, s)) == Credit(c, s)
  {
    var pad := CLEANUP_EVERY - 1 - b % CLEANUP_EVERY;
    var drain := Repeat(Call(0, 0.0), b);
    var cs := drain + Repeat(Call(1, 0.0), pad);
    PlainBurst(c, [], Call(0, 0.0), b);
    assert [] + drain == drain;
    assert drain[|drain| - 1] == Call(0, 0.0) by { RepeatAt(Call(0, 0.0), b); }
    SameInstant(c, Plain(c, drain), Call(0, 0.0)) by { PlainCapped(c, drain, 0); }
    PlainPadding(c, drain, Call(1, 0.0), pad, 0);
    assert Prelude(b, s) == cs + [Call(1, s)] && (cs + [Call(1, s)])[..|cs|] == cs;
  }

  lemma {:induction false} PlainCapped(c: Config, cs: seq<Call>, k: Key)
    requires k in Plain(c, cs)
    ensures Plain(c, cs)[k].tokens <= c.burst
  {
    if k != cs[|cs| - 1].key {
      PlainCapped(c, cs[..|cs| - 1], k);
    }
  }

  lemma PreludeEvicts(c: Config, b: nat, s: real)
    requires s > c.ttl
    ensures 0 !in Run(c, Prelude(b, s)).buckets
  {
    var pad := CLEANUP_EVERY - 1 - b % CLEANUP_EVERY;
    RepeatAt(Call(0, 0.0), b);
    RepeatAt(Call(1, 0.0), pad);
    var cs := Prelude(b, s);
    CallsCount(c, cs[..|cs| - 1]);
    assert (|cs| - 1) % CLEANUP_EVERY == CLEANUP_EVERY - 1;
    if 0 in Run(c, cs).buckets {
      LastIsACall(c, cs, 0);
    }
  }

  /** After j more calls at one instant the plain bucket is short of a token and the evicting one is not. */
  lemma Overdrawn(c: Config, pre: seq<Call>, call: Call, j: nat) returns (cs: seq<Call>, n: nat)
    requires c.ttl >= 0.0 && j as real <= Refill(c, Plain(c, pre), call) < j as real + 1.0
    requires Refill(c, Run(c, pre).buckets, call) >= j as real + 1.0
    ensures n < |cs| && cs == pre + Repeat(call, j + 1) && AnswerAt(c, cs, n).ok && !PlainAnswerAt(c, cs, n).ok
  {
    hide Refill, Plain, Run;
    PlainBurst(c, pre, call, j);
    EvictingBurst(c, pre, call, j);
    cs, n := pre + Repeat(call, j + 1), |pre| + j;
    RepeatAt(call, j + 1);
    RepeatAt(call, j);
    assert cs[..n] == pre + Repeat(call, j);
  }

  lemma AppendInOrder(pre: seq<Call>, call: Call, n: nat)
    requires InOrder(pre) && forall i :: 0 <= i < |pre| ==> pre[i].now <= call.now
    ensures InOrder(pre + Repeat(call, n))
  {
    RepeatAt(call, n);
  }

  /** The whole tokens in x, which is less than b. */
  lemma {:induction false} FloorBelow(x: real, b: nat) returns (j: nat)
    requires 0.0 <= x < b as real
    ensures j as real <= x < j as real + 1.0 <= b as real
    decreases b
  {
    j := b - 1;
    if x < j as real {
      j := FloorBelow(x, b - 1);
    }
  }

  /** If rate * ttl < burst, eviction can be observed. */
  lemma EvictionObservable(c: Config, b: nat) returns (cs: seq<Call>, n: nat)
    requires ConfigOk(c) && c.burst == b as real && b >= 1 && c.ttl >= 0.0 && Credit(c, c.ttl) < c.burst
    ensures InOrder(cs) && n < |cs| && AnswerAt(c, cs, n).ok && !PlainAnswerAt(c, cs, n).ok
  {
    hide Credit, Plain, Run, Prelude, InOrder, AnswerAt, PlainAnswerAt;
    var s := Between(c);
    var pre := Prelude(b, s);
    PreludePlain(c, b, s);
    PreludeEvicts(c, b, s);
    assert Refill(c, Run(c, pre).buckets, Call(0, s)) == c.burst;
    CreditZero(c);
    CreditMono(c, 0.0, s);
    var j := FloorBelow(Credit(c, s), b);
    hide Refill;
    cs, n := Overdrawn(c, pre, Call(0, s), j);
    PreludeInOrder(b, s);
    AppendInOrder(pre, Call(0, s), j + 1);
  }

  lemma PreludeInOrder(b: nat, s: real)
    requires s >= 0.0
    ensures InOrder(Prelude(b, s)) && forall i :: 0 <= i < |Prelude(b, s)| ==> Prelude(b, s)[i].now <= s
  {
    RepeatAt(Call(0, 0.0), b);
    RepeatAt(Call(1, 0.0), CLEANUP_EVERY - 1 - b % CLEANUP_EVERY);
  }

  /** Eviction goes unnoticed on all calls in order if and only if rate * ttl >= burst. */
  lemma EvictionExact(c: Config, b: nat)
    requires ConfigOk(c) && c.burst == b as real && c.ttl >= 0.0
    ensures (forall cs, n: nat :: InOrder(cs) && n < |cs| ==> AnswerAt(c, cs, n) == PlainAnswerAt(c, cs, n)) <==>
            Credit(c, c.ttl) >= c.burst
  {
    if Credit(c, c.ttl) >= c.burst {
      forall cs, n: nat | InOrder(cs) && n < |cs| ensures AnswerAt(c, cs, n) == PlainAnswerAt(c, cs, n) {
        EvictionUnobservable(c, cs, n);
      }
    } else {
      var cs, n := EvictionObservable(c, b);
    }
  }

  lemma Between(c: Config) returns (s: real)
    requires ConfigOk(c) && c.ttl >= 0.0 && Credit(c, c.ttl) < c.burst
    ensures s > c.ttl && Credit(c, s) < c.burst
  {
    if c.rate == 0.0 {
      s := c.ttl + 1.0;
    } else {
      var full := c.burst / c.rate;
      assert full * c.rate == c.burst;
      assert c.ttl < full;
      s := (c.ttl + full) / 2.0;
      assert s * c.rate == (c.ttl * c.rate + full * c.rate) / 2.0;
    }
  }
}
