/**
Local login sessions (agent/localauth/session.go). `Log` tells from the calls
alone, without looking at the stored sessions, what a token has been used for;
the theorems say that the manager answers exactly as the log demands and that
the periodic cleanup cannot be noticed.
*/
module Sessions {
  import opened Wrappers

  type Token = nat

  const CLI_IDLE := 15 * 60
  const WEB_IDLE := 30 * 60
  const WEB_MAX := 8 * 3600

  datatype Kind = Cli | Web
  datatype Session = Session(user: string, kind: Kind, createdAt: int, lastUsed: int, expiresAt: int)

  datatype Op =
    | Create(token: Token, user: string, kind: Kind, now: int)
    | Validate(token: Token, now: int)
    | Revoke(token: Token)
    | RevokeAll
    | Cleanup(now: int)

  function Idle(k: Kind): int {
    match k case Cli => CLI_IDLE case Web => WEB_IDLE
  }

  function Lifetime(k: Kind): int {
    match k case Cli => CLI_IDLE case Web => WEB_MAX
  }

  predicate Live(s: Session, now: int) {
    now <= s.expiresAt && now - s.lastUsed <= Idle(s.kind)
  }

  function Refresh(s: Session, now: int): Session {
    if s.kind == Cli then s.(lastUsed := now, expiresAt := now + CLI_IDLE) else s.(lastUsed := now)
  }

  predicate Succeeds(m: map<Token, Session>, token: Token, now: int) {
    token in m && Live(m[token], now)
  }

  function Next(m: map<Token, Session>, op: Op): map<Token, Session> {
    match op
    case Create(token, user, kind, now) => m[token := Session(user, kind, now, now, now + Lifetime(kind))]
    case Validate(token, now) =>
      if Succeeds(m, token, now) then m[token := Refresh(m[token], now)] else m - {token}
    case Revoke(token) => m - {token}
    case RevokeAll => map[]
    case Cleanup(now) => map t | t in m && Live(m[t], now) :: m[t]
  }

  function Run(ops: seq<Op>): map<Token, Session> {
    if ops == [] then map[] else Next(Run(ops[..|ops| - 1]), ops[|ops| - 1])
  }

  class SessionManager {
    var sessions: map<Token, Session>

    constructor ()
      ensures sessions == Run([])
    {
      sessions := map[];
    }

    method Create(token: Token, user: string, kind: Kind, now: int) returns (s: Session)
      modifies this
      ensures sessions == Next(old(sessions), Op.Create(token, user, kind, now)) && s == sessions[token]
      ensures s == Session(user, kind, now, now, now + if kind == Cli then 15 * 60 else 8 * 3600)
      ensures sessions - {token} == old(sessions) - {token}
    {
      s := Session(user, kind, now, now, 0);
      match kind {
        case Cli => s := s.(expiresAt := now + CLI_IDLE);
        case Web => s := s.(expiresAt := now + WEB_MAX);
      }
      sessions := sessions[token := s];
    }

    method Validate(token: Token, now: int) returns (r: Option<Session>)
      modifies this
      ensures sessions == Next(old(sessions), Op.Validate(token, now))
      ensures r.Some? <==> Succeeds(old(sessions), token, now)
      ensures r.Some? ==> token in sessions && r.value == sessions[token]
      ensures r.Some? ==>
                var s := old(sessions)[token];
                r.value == Session(s.user, s.kind, s.createdAt, now,
                                   if s.kind == Cli then now + 15 * 60 else s.expiresAt)
      ensures r.Some? <==>
                && token in old(sessions) && now <= old(sessions)[token].expiresAt
                && now - old(sessions)[token].lastUsed <= if old(sessions)[token].kind == Cli then 15 * 60 else 30 * 60
      ensures r.None? ==> token !in sessions
      ensures sessions - {token} == old(sessions) - {token}
    {
      if token !in sessions {
        return None;
      }
      var s := sessions[token];
      if now > s.expiresAt {
        sessions := sessions - {token};
        return None;
      }
      var idle := if s.kind == Cli then CLI_IDLE else WEB_IDLE;
      if now - s.lastUsed > idle {
        sessions := sessions - {token};
        return None;
      }
      s := s.(lastUsed := now);
      if s.kind == Cli {
        s := s.(expiresAt := now + CLI_IDLE);
      }
      sessions := sessions[token := s];
      return Some(s);
    }

    method Revoke(token: Token)
      modifies this
      ensures sessions == Next(old(sessions), Op.Revoke(token))
      ensures sessions == old(sessions) - {token}
    {
      sessions := sessions - {token};
    }

    method Cleanup(now: int)
      modifies this
      ensures sessions == Next(old(sessions), Op.Cleanup(now))
      ensures forall t :: t in sessions <==>
                && t in old(sessions) && now <= old(sessions)[t].expiresAt
                && now - old(sessions)[t].lastUsed <= if old(sessions)[t].kind == Cli then 15 * 60 else 30 * 60
      ensures forall t :: t in sessions ==> sessions[t] == old(sessions)[t]
    {
      var todo := sessions.Keys;
      while todo != {}
        invariant todo <= old(sessions).Keys
        invariant sessions ==
                  map t | t in old(sessions) && (t in todo || Live(old(sessions)[t], now)) :: old(sessions)[t]
        decreases todo
      {
        var t :| t in todo;
        todo := todo - {t};
        var s := sessions[t];
        var expired := now > s.expiresAt;
        var idle := now - s.lastUsed > Idle(s.kind);
        if expired || idle {
          sessions := sessions - {t};
        }
      }
    }
  }

  // ----- what the calls alone say -----

  /** A created, unrevoked token and every time it was presented since, creation first. */
  datatype History = History(user: string, kind: Kind, times: seq<int>)

  /** One call, as it appears in the log. */
  function LogNext(h: Option<History>, op: Op, token: Token): Option<History> {
    match op
    case Create(t, user, kind, now) => if t == token then Some(History(user, kind, [now])) else h
    case Validate(t, now) => if t == token && h.Some? then Some(h.value.(times := h.value.times + [now])) else h
    case Revoke(t) => if t == token then None else h
    case RevokeAll => None
    case Cleanup(_) => h
  }

  function Log(ops: seq<Op>, token: Token): Option<History> {
    if ops == [] then None else LogNext(Log(ops[..|ops| - 1], token), ops[|ops| - 1], token)
  }

  ghost predicate GapsOk(times: seq<int>, idle: int) {
    forall i :: 0 < i < |times| ==> times[i] - times[i - 1] <= idle
  }

  /** No gap between uses exceeds the idle limit, and a web session is within its lifetime. */
  ghost predicate ValidAt(h: History, now: int) {
    && h.times != []
    && GapsOk(h.times + [now], if h.kind == Cli then 15 * 60 else 30 * 60)
    && (h.kind == Web ==> now <= h.times[0] + 8 * 3600)
  }

  function Time(op: Op): Option<int> {
    match op
    case Create(_, _, _, now) => Some(now)
    case Validate(_, now) => Some(now)
    case Cleanup(now) => Some(now)
    case _ => None
  }

  ghost predicate InOrder(ops: seq<Op>) {
    forall i, k :: 0 <= i < k < |ops| && Time(ops[i]).Some? && Time(ops[k]).Some? ==>
      Time(ops[i]).value <= Time(ops[k]).value
  }

  ghost predicate NoneAfter(ops: seq<Op>, now: int) {
    forall i :: 0 <= i < |ops| && Time(ops[i]).Some? ==> Time(ops[i]).value <= now
  }

  /** The stored session carries what its history says, and its expiry follows from it. */
  ghost predicate Records(s: Session, h: History) {
    && h.times != [] && s.kind == h.kind && s.user == h.user
    && s.createdAt == h.times[0] && s.lastUsed == h.times[|h.times| - 1]
    && s.expiresAt == (if h.kind == Cli then s.lastUsed + CLI_IDLE else s.createdAt + WEB_MAX)
    && GapsOk(h.times, Idle(h.kind))
  }

  /** At time `now`, what is stored for a token agrees with its history. */
  ghost predicate Agrees(m: map<Token, Session>, h: Option<History>, token: Token, now: int) {
    && (token in m ==> h.Some? && Records(m[token], h.value))
    && (h.Some? ==> h.value.times != [] && h.value.times[|h.value.times| - 1] <= now)
    && (h.Some? && token !in m ==> !ValidAt(h.value, now))
  }

  lemma GapsSnoc(times: seq<int>, t: int, idle: int)
    requires times != []
    ensures GapsOk(times + [t], idle) <==> GapsOk(times, idle) && t - times[|times| - 1] <= idle
  {
    if GapsOk(times + [t], idle) {
      forall i | 0 < i < |times| ensures times[i] - times[i - 1] <= idle {
        assert (times + [t])[i] - (times + [t])[i - 1] <= idle;
      }
      assert (times + [t])[|times|] - (times + [t])[|times| - 1] <= idle;
    }
  }

  /** For a recorded session, the manager's two checks are the history's one. */
  lemma LiveIsValid(s: Session, h: History, now: int)
    requires Records(s, h)
    ensures Live(s, now) <==> ValidAt(h, now)
  {
    GapsSnoc(h.times, now, Idle(h.kind));
  }

  /** Once invalid, later uses stay invalid. */
  lemma InvalidStays(h: History, now: int, later: int)
    requires h.times != [] && now <= later && !ValidAt(h, now)
    ensures !ValidAt(h, later) && !ValidAt(h.(times := h.times + [now]), later)
  {
    GapsSnoc(h.times, now, Idle(h.kind));
    GapsSnoc(h.times, later, Idle(h.kind));
    GapsSnoc(h.times + [now], later, Idle(h.kind));
  }

  lemma ValidateAgrees(m: map<Token, Session>, h: Option<History>, token: Token, now: int)
    requires Agrees(m, h, token, now)
    ensures Succeeds(m, token, now) <==> h.Some? && ValidAt(h.value, now)
    ensures var m' := Next(m, Validate(token, now));
            var h' := if h.Some? then Some(h.value.(times := h.value.times + [now])) else None;
            Agrees(m', h', token, now)
  {
    if token in m {
      LiveIsValid(m[token], h.value, now);
    }
    if h.Some? {
      GapsSnoc(h.value.times, now, Idle(h.value.kind));
      if !ValidAt(h.value, now) {
        InvalidStays(h.value, now, now);
      }
    }
  }

  lemma CleanupAgrees(m: map<Token, Session>, h: Option<History>, token: Token, now: int)
    requires Agrees(m, h, token, now)
    ensures Agrees(Next(m, Cleanup(now)), h, token, now)
  {
    if token in m {
      LiveIsValid(m[token], h.value, now);
    }
  }

  lemma AgreesLater(m: map<Token, Session>, h: Option<History>, token: Token, now: int, later: int)
    requires Agrees(m, h, token, now) && now <= later
    ensures Agrees(m, h, token, later)
  {
    if h.Some? && token !in m {
      InvalidStays(h.value, now, later);
    }
  }

  lemma {:induction false} AgreesAlways(ops: seq<Op>, token: Token, now: int)
    requires InOrder(ops) && NoneAfter(ops, now)
    ensures Agrees(Run(ops), Log(ops, token), token, now)
  {
    if ops != [] {
      var init, op := ops[..|ops| - 1], ops[|ops| - 1];
      var t := if Time(op).Some? then Time(op).value else now;
      AgreesAlways(init, token, t);
      StepAgrees(Run(init), Log(init, token), op, token, t);
      AgreesLater(Run(ops), Log(ops, token), token, t, now);
    }
  }

  lemma StepAgrees(m: map<Token, Session>, h: Option<History>, op: Op, token: Token, now: int)
    requires Agrees(m, h, token, now) && (Time(op).Some? ==> Time(op).value == now)
    ensures Agrees(Next(m, op), LogNext(h, op, token), token, now)
  {
    match op
    case Create(t, _, kind, _) =>
    case Validate(t, _) =>
      if t == token {
        ValidateAgrees(m, h, token, now);
      }
    case Revoke(t) =>
    case RevokeAll =>
    case Cleanup(_) => CleanupAgrees(m, h, token, now);
  }

  /** Validate succeeds exactly when the calls so far allow it. */
  lemma ValidateExactly(ops: seq<Op>, token: Token, now: int)
    requires InOrder(ops) && NoneAfter(ops, now)
    ensures Succeeds(Run(ops), token, now) <==>
            Log(ops, token).Some? && ValidAt(Log(ops, token).value, now)
    ensures Succeeds(Run(ops), token, now) ==>
            var s, h := Next(Run(ops), Validate(token, now))[token], Log(ops, token).value;
            s.user == h.user && s.kind == h.kind && s.createdAt == h.times[0] && s.lastUsed == now
  {
    AgreesAlways(ops, token, now);
    ValidateAgrees(Run(ops), Log(ops, token), token, now);
  }

  // ----- cleanup is unobservable -----

  function WithoutCleanup(ops: seq<Op>): seq<Op> {
    if ops == [] then []
    else WithoutCleanup(ops[..|ops| - 1]) + if ops[|ops| - 1].Cleanup? then [] else [ops[|ops| - 1]]
  }

  lemma {:induction false} WithoutCleanupLog(ops: seq<Op>, token: Token)
    ensures Log(WithoutCleanup(ops), token) == Log(ops, token)
  {
    if ops != [] {
      var init := ops[..|ops| - 1];
      WithoutCleanupLog(init, token);
      if !ops[|ops| - 1].Cleanup? {
        assert WithoutCleanup(ops)[..|WithoutCleanup(ops)| - 1] == WithoutCleanup(init);
      } else {
        assert WithoutCleanup(ops) == WithoutCleanup(init);
      }
    }
  }

  lemma {:induction false} WithoutCleanupInOrder(ops: seq<Op>, now: int)
    requires InOrder(ops) && NoneAfter(ops, now)
    ensures InOrder(WithoutCleanup(ops)) && NoneAfter(WithoutCleanup(ops), now)
  {
    if ops != [] {
      var init, op := ops[..|ops| - 1], ops[|ops| - 1];
      WithoutCleanupInOrder(init, if Time(op).Some? then Time(op).value else now);
    }
  }

  /** Cleanups at any moments never change whether a later Validate succeeds. */
  lemma CleanupUnobservable(ops: seq<Op>, token: Token, now: int)
    requires InOrder(ops) && NoneAfter(ops, now)
    ensures Succeeds(Run(ops), token, now) <==> Succeeds(Run(WithoutCleanup(ops)), token, now)
  {
    WithoutCleanupLog(ops, token);
    WithoutCleanupInOrder(ops, now);
    ValidateExactly(ops, token, now);
    ValidateExactly(WithoutCleanup(ops), token, now);
  }

  /** For CLI sessions the absolute and the idle check coincide, at any time. */
  lemma CliChecksCoincide(ops: seq<Op>, token: Token, now: int, t: int)
    requires InOrder(ops) && NoneAfter(ops, now) && token in Run(ops) && Run(ops)[token].kind == Cli
    ensures var s := Run(ops)[token];
            s.expiresAt == s.lastUsed + 15 * 60 && (t > s.expiresAt <==> t - s.lastUsed > 15 * 60)
  {
    AgreesAlways(ops, token, now);
  }
}
