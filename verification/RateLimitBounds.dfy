/**
What the limiter promises to one key: its token count in closed form, and the
exact condition under which a call is refused. The closed form does not need
the timestamps to be in order.
*/
module RateLimitBounds {
  import opened RateLimiter

  /** Tokens after the refill at call n, for the calls of one key at times `ts`. */
  function Tokens(c: Config, ts: seq<real>, n: nat): real
    requires n < |ts|
  {
    if n == 0 then c.burst
    else Min(c.burst, Spend(Tokens(c, ts, n - 1)) + Credit(c, ts[n] - ts[n - 1]))
  }

  predicate Granted(c: Config, ts: seq<real>, n: nat)
    requires n < |ts|
  {
    Tokens(c, ts, n) >= 1.0
  }

  /** How many of the calls i, ..., n-1 were granted. */
  function Grants(c: Config, ts: seq<real>, i: nat, n: nat): nat
    requires i <= n <= |ts|
  {
    if i == n then 0 else Grants(c, ts, i, n - 1) + if Granted(c, ts, n - 1) then 1 else 0
  }

  /** What a window opening at call i still leaves at call n. */
  function Left(c: Config, ts: seq<real>, i: nat, n: nat): real
    requires i <= n < |ts|
  {
    c.burst + Credit(c, ts[n] - ts[i]) - Grants(c, ts, i, n) as real
  }

  lemma LeftStep(c: Config, ts: seq<real>, i: nat, n: nat)
    requires i < n < |ts|
    ensures Left(c, ts, i, n) ==
            Left(c, ts, i, n - 1) - (if Granted(c, ts, n - 1) then 1.0 else 0.0) + Credit(c, ts[n] - ts[n - 1])
  {
    CreditAdd(c, ts[n - 1] - ts[i], ts[n] - ts[n - 1]);
    assert (ts[n - 1] - ts[i]) + (ts[n] - ts[n - 1]) == ts[n] - ts[i];
  }

  /** The token count is the least that any window leaves. */
  lemma {:induction false} ClosedForm(c: Config, ts: seq<real>, n: nat) returns (least: nat)
    requires n < |ts|
    ensures least <= n && Tokens(c, ts, n) == Left(c, ts, least, n)
    ensures forall i :: 0 <= i <= n ==> Tokens(c, ts, n) <= Left(c, ts, i, n)
  {
    hide Credit;
    CreditZero(c);
    assert Left(c, ts, n, n) == c.burst;
    if n == 0 {
      least := 0;
    } else {
      var before := ClosedForm(c, ts, n - 1);
      LeftStep(c, ts, before, n);
      least := if Left(c, ts, before, n) < c.burst then before else n;
      forall i | 0 <= i <= n ensures Tokens(c, ts, n) <= Left(c, ts, i, n) {
        if i < n {
          LeftStep(c, ts, i, n);
        }
      }
    }
  }

  /** A call is refused exactly when granting it would push some window over burst + rate * length. */
  lemma RefusedExactly(c: Config, ts: seq<real>, n: nat)
    requires n < |ts|
    ensures !Granted(c, ts, n) <==>
            exists i :: 0 <= i <= n && Grants(c, ts, i, n) as real + 1.0 > c.burst + Credit(c, ts[n] - ts[i])
  {
    hide Credit;
    var least := ClosedForm(c, ts, n);
    if i :| 0 <= i <= n && Grants(c, ts, i, n) as real + 1.0 > c.burst + Credit(c, ts[n] - ts[i]) {
      assert Tokens(c, ts, n) <= Left(c, ts, i, n);
    }
    if !Granted(c, ts, n) {
      assert Grants(c, ts, least, n) as real + 1.0 > c.burst + Credit(c, ts[n] - ts[least]);
    }
  }

  /** No window of calls that ends with a grant holds more than burst + rate * length grants. */
  lemma WindowRespected(c: Config, ts: seq<real>, i: nat, n: nat)
    requires i <= n < |ts| && Granted(c, ts, n)
    ensures Grants(c, ts, i, n + 1) as real <= c.burst + Credit(c, ts[n] - ts[i])
  {
    hide Credit;
    var _ := ClosedForm(c, ts, n);
    assert Tokens(c, ts, n) <= Left(c, ts, i, n);
  }

  // ----- from one key to the keyed limiter -----

  function Times(cs: seq<Call>, k: Key): seq<real> {
    if cs == [] then []
    else Times(cs[..|cs| - 1], k) + if cs[|cs| - 1].key == k then [cs[|cs| - 1].now] else []
  }

  lemma {:induction false} TokensPrefix(c: Config, ts: seq<real>, t: real, n: nat)
    requires n < |ts|
    ensures Tokens(c, ts + [t], n) == Tokens(c, ts, n)
  {
    if n > 0 {
      TokensPrefix(c, ts, t, n - 1);
    }
  }

  /** Keys do not disturb each other: a bucket depends on its own calls only. */
  lemma {:induction false} BucketOfKey(c: Config, cs: seq<Call>, k: Key)
    ensures k in Plain(c, cs) <==> Times(cs, k) != []
    ensures var ts := Times(cs, k);
            k in Plain(c, cs) ==> Plain(c, cs)[k] == Bucket(Spend(Tokens(c, ts, |ts| - 1)), ts[|ts| - 1])
  {
    hide Credit, Spend, Min;
    if cs != [] {
      var call, init := cs[|cs| - 1], cs[..|cs| - 1];
      BucketOfKey(c, init, k);
      if call.key == k {
        var before := Times(init, k);
        assert Times(cs, k) == before + [call.now];
        if before != [] {
          TokensPrefix(c, before, call.now, |before| - 1);
        }
        assert Tokens(c, before + [call.now], |before|) == Refill(c, Plain(c, init), call);
      } else {
        assert Times(cs, k) == Times(init, k);
      }
    }
  }

  lemma TokensAtCall(c: Config, cs: seq<Call>, n: nat)
    requires n < |cs|
    ensures var ts := Times(cs[..n + 1], cs[n].key);
            ts != [] && ts[|ts| - 1] == cs[n].now &&
            Refill(c, Plain(c, cs[..n]), cs[n]) == Tokens(c, ts, |ts| - 1)
  {
    var k, before := cs[n].key, Times(cs[..n], cs[n].key);
    assert cs[..n + 1][..n] == cs[..n];
    BucketOfKey(c, cs[..n], k);
    if before != [] {
      TokensPrefix(c, before, cs[n].now, |before| - 1);
    }
  }

  /**
  The limiter as it runs, cleanup included: a call is allowed exactly when no
  window of its key's calls would then exceed burst + rate * length.
  */
  lemma AllowedExactly(c: Config, cs: seq<Call>, n: nat)
    requires ConfigOk(c) && Credit(c, c.ttl) >= c.burst && InOrder(cs) && n < |cs|
    ensures var ts := Times(cs[..n + 1], cs[n].key); var m := |ts| - 1;
            m >= 0 &&
            (AnswerAt(c, cs, n).ok <==>
             forall i :: 0 <= i <= m ==> Grants(c, ts, i, m) as real + 1.0 <= c.burst + Credit(c, ts[m] - ts[i]))
  {
    EvictionUnobservable(c, cs, n);
    TokensAtCall(c, cs, n);
    var ts := Times(cs[..n + 1], cs[n].key);
    RefusedExactly(c, ts, |ts| - 1);
  }

  // ----- the answered wait -----

  /** From a count below one, the next token is there after exactly the answered wait. */
  lemma WaitForToken(c: Config, tokens: real, dt: real)
    requires c.rate > 0.0 && tokens < 1.0
    ensures tokens + Credit(c, dt) >= 1.0 <==> dt >= Decide(c, tokens).wait.seconds
  {
    var wait := Decide(c, tokens).wait.seconds;
    assert wait * c.rate == 1.0 - tokens;
    if dt >= wait {
      CreditMono(c, wait, dt);
    } else {
      assert (wait - dt) * c.rate > 0.0;
      CreditAdd(c, dt, wait - dt);
    }
  }

  /** Calls of other keys leave a bucket alone. */
  lemma {:induction false} Untouched(c: Config, cs: seq<Call>, i: nat, k: nat, key: Key)
    requires i <= k <= |cs| && key in Plain(c, cs[..i]) && forall m :: i <= m < k ==> cs[m].key != key
    ensures key in Plain(c, cs[..k]) && Plain(c, cs[..k])[key] == Plain(c, cs[..i])[key]
  {
    if i < k {
      Untouched(c, cs, i, k - 1, key);
      assert cs[..k][..k - 1] == cs[..k - 1];
    }
  }

  /**
  The wait answered to a refused call is exact: the next call of that key is
  allowed if and only if it comes at least that much later, whatever other keys
  do in between. (With a burst below one, or no refill, it never is.)
  */
  lemma WaitExact(c: Config, cs: seq<Call>, n: nat, k: nat)
    requires ConfigOk(c) && Credit(c, c.ttl) >= c.burst && InOrder(cs) && n < k < |cs|
    requires cs[k].key == cs[n].key && forall m :: n < m < k ==> cs[m].key != cs[n].key
    requires !AnswerAt(c, cs, n).ok
    ensures AnswerAt(c, cs, k).ok <==>
            c.burst >= 1.0 && c.rate > 0.0 && cs[k].now - cs[n].now >= AnswerAt(c, cs, n).wait.seconds
  {
    EvictionUnobservable(c, cs, n);
    EvictionUnobservable(c, cs, k);
    hide AnswerAt, Run;
    var tokens, dt := Refill(c, Plain(c, cs[..n]), cs[n]), cs[k].now - cs[n].now;
    assert cs[..n + 1][..n] == cs[..n];
    assert Plain(c, cs[..n + 1])[cs[n].key] == Bucket(tokens, cs[n].now);
    Untouched(c, cs, n + 1, k, cs[n].key);
    assert Refill(c, Plain(c, cs[..k]), cs[k]) == Min(c.burst, tokens + Credit(c, dt));
    if c.rate > 0.0 {
      WaitForToken(c, tokens, dt);
    }
  }
}
