/**
The keyed token bucket of server/ratelimit/limiter.go, over exact reals.
`Plain` is the bucket map that never evicts; `Run` is the limiter with its
cleanup every 1024 calls.
*/
module RateLimiter {
  type Key = nat

  const CLEANUP_EVERY := 1024

  datatype Config = Config(rate: real, burst: real, ttl: real)
  datatype Bucket = Bucket(tokens: real, last: real)
  datatype Call = Call(key: Key, now: real)

  /** The wait of a refused call; at rate zero the source divides by zero and its wait means nothing. */
  datatype Wait = Seconds(seconds: real) | Meaningless
  datatype Answer = Answer(ok: bool, wait: Wait)
  datatype Limiter = Limiter(buckets: map<Key, Bucket>, calls: nat)

  predicate ConfigOk(c: Config) {
    c.rate >= 0.0 && c.burst >= 0.0
  }

  /** Tokens earned in `dt` seconds. */
  function Credit(c: Config, dt: real): real {
    dt * c.rate
  }

  lemma CreditMono(c: Config, a: real, b: real)
    requires c.rate >= 0.0 && a <= b
    ensures Credit(c, a) <= Credit(c, b)
  {
  }

  lemma CreditZero(c: Config)
    ensures Credit(c, 0.0) == 0.0
  {
  }

  lemma CreditAdd(c: Config, a: real, b: real)
    ensures Credit(c, a + b) == Credit(c, a) + Credit(c, b)
  {
  }

  function Min(a: real, b: real): real {
    if a < b then a else b
  }

  /** Tokens once the elapsed time is credited; a new bucket starts full. */
  function Refill(c: Config, m: map<Key, Bucket>, call: Call): real {
    if call.key in m then Min(c.burst, m[call.key].tokens + Credit(c, call.now - m[call.key].last))
    else c.burst
  }

  function Spend(tokens: real): real {
    if tokens >= 1.0 then tokens - 1.0 else tokens
  }

  function Decide(c: Config, tokens: real): Answer {
    if tokens >= 1.0 then Answer(true, Seconds(0.0))
    else Answer(false, if c.rate == 0.0 then Meaningless else Seconds((1.0 - tokens) / c.rate))
  }

  function Touch(c: Config, m: map<Key, Bucket>, call: Call): map<Key, Bucket> {
    m[call.key := Bucket(Spend(Refill(c, m, call)), call.now)]
  }

  function Evict(m: map<Key, Bucket>, cutoff: real): map<Key, Bucket> {
    map k | k in m && !(m[k].last < cutoff) :: m[k]
  }

  function Step(c: Config, l: Limiter, call: Call): Limiter {
    var m := Touch(c, l.buckets, call);
    if l.calls + 1 < CLEANUP_EVERY then Limiter(m, l.calls + 1)
    else Limiter(Evict(m, call.now - c.ttl), 0)
  }

  function Run(c: Config, cs: seq<Call>): Limiter {
    if cs == [] then Limiter(map[], 0)
    else Step(c, Run(c, cs[..|cs| - 1]), cs[|cs| - 1])
  }

  function Plain(c: Config, cs: seq<Call>): map<Key, Bucket> {
    if cs == [] then map[]
    else Touch(c, Plain(c, cs[..|cs| - 1]), cs[|cs| - 1])
  }

  /** The answer to call n, with and without eviction. */
  function AnswerAt(c: Config, cs: seq<Call>, n: nat): Answer
    requires n < |cs|
  {
    Decide(c, Refill(c, Run(c, cs[..n]).buckets, cs[n]))
  }

  function PlainAnswerAt(c: Config, cs: seq<Call>, n: nat): Answer
    requires n < |cs|
  {
    Decide(c, Refill(c, Plain(c, cs[..n]), cs[n]))
  }

  class KeyedLimiter {
    const c: Config
    var buckets: map<Key, Bucket>
    var calls: nat

    constructor (c: Config)
      ensures this.c == c && State() == Run(c, [])
    {
      this.c := c;
      buckets, calls := map[], 0;
    }

    function State(): Limiter
      reads this
    {
      Limiter(buckets, calls)
    }

    method Allow(key: Key, now: real) returns (ok: bool, wait: Wait)
      modifies this
      ensures Answer(ok, wait) == Decide(c, Refill(c, old(buckets), Call(key, now)))
      ensures State() == Step(c, old(State()), Call(key, now))
      ensures var b := if key in old(buckets) then old(buckets)[key] else Bucket(c.burst, now);
              var tokens := Min(c.burst, b.tokens + (now - b.last) * c.rate);
              && (ok <==> tokens >= 1.0)
              && (key in buckets ==> buckets[key] == Bucket(if ok then tokens - 1.0 else tokens, now))
    {
      if key !in buckets {
        buckets := buckets[key := Bucket(c.burst, now)];
      }
      var elapsed := now - buckets[key].last;
      var tokens := Min(c.burst, buckets[key].tokens + Credit(c, elapsed));
      CreditZero(c);
      assert tokens == Refill(c, old(buckets), Call(key, now));
      if tokens >= 1.0 {
        buckets := buckets[key := Bucket(tokens - 1.0, now)];
        ok, wait := true, Seconds(0.0);
      } else {
        buckets := buckets[key := Bucket(tokens, now)];
        ok, wait := false, if c.rate == 0.0 then Meaningless else Seconds((1.0 - tokens) / c.rate);
      }
      assert buckets == Touch(c, old(buckets), Call(key, now));
      MaybeCleanup(now);
    }

    method MaybeCleanup(now: real)
      modifies this
      ensures State() == if old(calls) + 1 < CLEANUP_EVERY then Limiter(old(buckets), old(calls) + 1)
                         else Limiter(Evict(old(buckets), now - c.ttl), 0)
      ensures calls == if old(calls) + 1 < 1024 then old(calls) + 1 else 0
      ensures forall k :: k in buckets <==>
                k in old(buckets) && (calls != 0 || now - c.ttl <= old(buckets)[k].last)
      ensures forall k :: k in buckets ==> buckets[k] == old(buckets)[k]
    {
      calls := calls + 1;
      if calls < CLEANUP_EVERY {
        return;
      }
      calls := 0;
      var cutoff := now - c.ttl;
      var todo := buckets.Keys;
      while todo != {}
        invariant calls == 0 && todo <= old(buckets).Keys
        invariant buckets == map k | k in old(buckets) && (k in todo || !(old(buckets)[k].last < cutoff)) ::
          old(buckets)[k]
        decreases todo
      {
        var k :| k in todo;
        todo := todo - {k};
        if buckets[k].last < cutoff {
          buckets := buckets - {k};
        }
      }
    }
  }

  // ----- eviction is unobservable -----

  ghost predicate InOrder(cs: seq<Call>) {
    forall i, k :: 0 <= i < k < |cs| ==> cs[i].now <= cs[k].now
  }

  /** At time `now`, the bucket would be full again. */
  predicate FullBy(c: Config, b: Bucket, now: real) {
    b.tokens + Credit(c, now - b.last) >= c.burst
  }

  predicate BucketOk(c: Config, b: Bucket, now: real) {
    0.0 <= b.tokens <= c.burst && b.last <= now
  }

  /** The evicting map agrees with the plain one, except for full buckets it has dropped. */
  ghost predicate Agree(c: Config, m: map<Key, Bucket>, plain: map<Key, Bucket>, now: real) {
    && (forall k :: k in m ==> k in plain && m[k] == plain[k])
    && (forall k :: k in plain ==> BucketOk(c, plain[k], now))
    && (forall k :: k in plain && k !in m ==> FullBy(c, plain[k], now))
  }

  lemma AgreeLater(c: Config, m: map<Key, Bucket>, plain: map<Key, Bucket>, now: real, later: real)
    requires ConfigOk(c) && Agree(c, m, plain, now) && now <= later
    ensures Agree(c, m, plain, later)
  {
    hide Credit;
    forall k | k in plain && k !in m ensures FullBy(c, plain[k], later) {
      CreditMono(c, now - plain[k].last, later - plain[k].last);
    }
  }

  /** A full bucket refills to the same tokens as a new one. */
  lemma AgreeRefill(c: Config, m: map<Key, Bucket>, plain: map<Key, Bucket>, call: Call)
    requires ConfigOk(c) && Agree(c, m, plain, call.now)
    ensures Refill(c, m, call) == Refill(c, plain, call)
    ensures 0.0 <= Refill(c, plain, call) <= c.burst
  {
    hide Credit;
    if call.key in plain {
      var b := plain[call.key];
      assert BucketOk(c, b, call.now);
      CreditZero(c);
      CreditMono(c, 0.0, call.now - b.last);
    }
  }

  lemma AgreeTouch(c: Config, m: map<Key, Bucket>, plain: map<Key, Bucket>, call: Call)
    requires ConfigOk(c) && Agree(c, m, plain, call.now)
    ensures Agree(c, Touch(c, m, call), Touch(c, plain, call), call.now)
  {
    hide Credit;
    AgreeRefill(c, m, plain, call);
  }

  lemma AgreeEvict(c: Config, m: map<Key, Bucket>, plain: map<Key, Bucket>, now: real)
    requires ConfigOk(c) && Credit(c, c.ttl) >= c.burst && Agree(c, m, plain, now)
    ensures Agree(c, Evict(m, now - c.ttl), plain, now)
  {
    hide Credit;
    forall k | k in plain && k !in Evict(m, now - c.ttl) ensures FullBy(c, plain[k], now) {
      if k in m {
        assert BucketOk(c, plain[k], now);
        CreditMono(c, c.ttl, now - plain[k].last);
      }
    }
  }

  lemma {:induction false} AgreeAlways(c: Config, cs: seq<Call>, now: real)
    requires ConfigOk(c) && Credit(c, c.ttl) >= c.burst && InOrder(cs)
    requires forall i :: 0 <= i < |cs| ==> cs[i].now <= now
    ensures Agree(c, Run(c, cs).buckets, Plain(c, cs), now)
  {
    if cs != [] {
      var call, init := cs[|cs| - 1], cs[..|cs| - 1];
      AgreeAlways(c, init, call.now);
      AgreeTouch(c, Run(c, init).buckets, Plain(c, init), call);
      AgreeEvict(c, Touch(c, Run(c, init).buckets, call), Plain(c, cs), call.now);
      AgreeLater(c, Run(c, cs).buckets, Plain(c, cs), call.now, now);
    }
  }

  /** When rate * ttl >= burst, every call gets the answer and wait it would get without eviction. */
  lemma EvictionUnobservable(c: Config, cs: seq<Call>, n: nat)
    requires ConfigOk(c) && Credit(c, c.ttl) >= c.burst && InOrder(cs) && n < |cs|
    ensures AnswerAt(c, cs, n) == PlainAnswerAt(c, cs, n)
  {
    AgreeAlways(c, cs[..n], cs[n].now);
    AgreeRefill(c, Run(c, cs[..n]).buckets, Plain(c, cs[..n]), cs[n]);
  }

  /** The limiters the API server builds, per IP, per tenant and per agent, at their default settings. */
  const DEFAULTS: set<Config> := {
    Config(60.0 / 60.0, 10.0, 600.0), Config(600.0 / 60.0, 50.0, 3600.0), Config(6.0 / 60.0, 3.0, 1800.0)
  }

  lemma DefaultsUnobservable(c: Config, cs: seq<Call>, n: nat)
    requires c in DEFAULTS && InOrder(cs) && n < |cs|
    ensures AnswerAt(c, cs, n) == PlainAnswerAt(c, cs, n)
  {
    EvictionUnobservable(c, cs, n);
  }

  // ----- how many keys are tracked -----

  function KeysOf(cs: seq<Call>): set<Key> {
    if cs == [] then {} else KeysOf(cs[..|cs| - 1]) + {cs[|cs| - 1].key}
  }

  /** Keys some call used at or after `cutoff`. */
  function UsedSince(cs: seq<Call>, cutoff: real): set<Key> {
    set i | 0 <= i < |cs| && cutoff <= cs[i].now :: cs[i].key
  }

  /** Calls up to and including the last cleanup. */
  function Cleaned(c: Config, cs: seq<Call>): nat {
    if Run(c, cs).calls <= |cs| then |cs| - Run(c, cs).calls else 0
  }

  /** The keys in use when the last cleanup ran. */
  function Kept(c: Config, cs: seq<Call>): set<Key> {
    var q := Cleaned(c, cs);
    if q == 0 then {} else UsedSince(cs[..q], cs[q - 1].now - c.ttl)
  }

  lemma {:induction false} LastIsACall(c: Config, cs: seq<Call>, k: Key)
    requires k in Run(c, cs).buckets
    ensures Call(k, Run(c, cs).buckets[k].last) in cs
  {
    var call, init := cs[|cs| - 1], cs[..|cs| - 1];
    if k != call.key {
      LastIsACall(c, init, k);
    }
  }

  lemma KeysOfSnoc(cs: seq<Call>, call: Call)
    ensures KeysOf(cs + [call]) == KeysOf(cs) + {call.key}
  {
    assert (cs + [call])[..|cs|] == cs;
  }

  /** Right after a cleanup only recently used keys remain. */
  lemma KeptAfterCleanup(c: Config, cs: seq<Call>, k: Key)
    requires cs != [] && Run(c, cs).calls == 0 && k in Run(c, cs).buckets
    ensures k in UsedSince(cs, cs[|cs| - 1].now - c.ttl)
  {
    LastIsACall(c, cs, k);
    assert Run(c, cs[..|cs| - 1]).calls + 1 >= CLEANUP_EVERY;
    assert !(Run(c, cs).buckets[k].last < cs[|cs| - 1].now - c.ttl);
    hide Run;
    var i :| 0 <= i < |cs| && cs[i] == Call(k, Run(c, cs).buckets[k].last);
  }

  lemma {:induction false} CallsBounded(c: Config, cs: seq<Call>)
    ensures Run(c, cs).calls < CLEANUP_EVERY && Run(c, cs).calls <= |cs|
  {
    if cs != [] {
      CallsBounded(c, cs[..|cs| - 1]);
    }
  }

  /** Between cleanups a call adds its own key only. */
  lemma TrackedStep(c: Config, cs: seq<Call>)
    requires cs != [] && Run(c, cs).calls > 0
    ensures var init := cs[..|cs| - 1];
            && Run(c, cs).calls == Run(c, init).calls + 1
            && Run(c, cs).buckets.Keys == Run(c, init).buckets.Keys + {cs[|cs| - 1].key}
  {
  }

  lemma CleanedStep(c: Config, cs: seq<Call>)
    requires cs != [] && 0 < Run(c, cs).calls <= |cs|
    ensures var init, q := cs[..|cs| - 1], Cleaned(c, cs);
            && q <= |init| && Cleaned(c, init) == q
            && cs[q..] == init[q..] + [cs[|cs| - 1]] && Kept(c, init) == Kept(c, cs)
  {
    TrackedStep(c, cs);
    hide Run;
    assert cs[..|cs| - 1][..Cleaned(c, cs)] == cs[..Cleaned(c, cs)];
  }

  lemma {:induction false} TrackedKeys(c: Config, cs: seq<Call>)
    ensures Run(c, cs).buckets.Keys <= Kept(c, cs) + KeysOf(cs[Cleaned(c, cs)..])
  {
    CallsBounded(c, cs);
    if cs != [] && Run(c, cs).calls > 0 {
      var init, q := cs[..|cs| - 1], Cleaned(c, cs);
      TrackedStep(c, cs);
      CleanedStep(c, cs);
      KeysOfSnoc(init[q..], cs[|cs| - 1]);
      hide Run, Kept, KeysOf, Cleaned;
      TrackedKeys(c, init);
    } else if cs != [] {
      assert cs[..|cs|] == cs;
      hide Run;
      forall k | k in Run(c, cs).buckets ensures k in Kept(c, cs) {
        KeptAfterCleanup(c, cs, k);
      }
    }
  }

  lemma {:induction false} KeysOfSize(cs: seq<Call>)
    ensures |KeysOf(cs)| <= |cs|
  {
    if cs != [] {
      KeysOfSize(cs[..|cs| - 1]);
    }
  }

  /** The limiter tracks fewer than 1024 keys beyond those used within ttl of the last cleanup. */
  lemma TrackedKeysBounded(c: Config, cs: seq<Call>)
    ensures |Run(c, cs).buckets| < |Kept(c, cs)| + 1024
  {
    CallsBounded(c, cs);
    TrackedKeys(c, cs);
    var extra := KeysOf(cs[Cleaned(c, cs)..]);
    KeysOfSize(cs[Cleaned(c, cs)..]);
    SubsetSize(Run(c, cs).buckets.Keys, Kept(c, cs) + extra);
    assert |Kept(c, cs) + extra| <= |Kept(c, cs)| + |extra|;
  }

  lemma {:induction false} SubsetSize(a: set<Key>, b: set<Key>)
    requires a <= b
    ensures |a| <= |b|
  {
    if x :| x in a {
      SubsetSize(a - {x}, b - {x});
    }
  }
}
