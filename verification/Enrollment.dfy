/**
Enrollment tokens, devices and agent certificates: server/auth/enrollment.go,
server/api/enroll.go, server/api/renew.go, server/store/devices.go and the
admission check of server/auth/mtls.go. Consuming a token and committing the
enrollment are separate steps; an authenticated request is admitted and handled
in one step. `issued`, `consumed` and `origin` are histories.
*/
module Enrollment {
  import opened Wrappers

  type TokenId = nat
  type DeviceId = nat
  type CertId = nat
  type TenantId = nat

  /** A group, tag or site, by kind and id. */
  type Parent = (nat, nat)

  datatype Token = Token(tenant: TenantId, scope: seq<Parent>, usedAt: Option<int>, expiresAt: int)
  datatype Device = Device(tenant: TenantId, revoked: bool)
  datatype Cert = Cert(device: DeviceId, serial: nat, notBefore: int, notAfter: int, revokedAt: Option<int>)

  datatype Registry = Registry(
    tokens: map<TokenId, Token>, devices: map<DeviceId, Device>, certs: map<CertId, Cert>,
    parents: map<Parent, TenantId>, members: set<(DeviceId, Parent)>, pending: map<TokenId, Token>,
    issued: set<TokenId>, consumed: set<TokenId>, origin: map<DeviceId, TokenId>)

  const CERT_VALIDITY := 90 * 24 * 3600

  datatype Event =
    | CreateToken(token: TokenId, tenant: TenantId, scope: seq<Parent>, expiresAt: int)
    | Consume(token: TokenId, now: int)
    | Abandon(token: TokenId)
    | Enroll(token: TokenId, device: DeviceId, cert: CertId, serial: nat, now: int)
    | Renew(device: DeviceId, presented: nat, cert: CertId, serial: nat, now: int)
    | Checkin(device: DeviceId, presented: nat, now: int)
    | Revoke(device: DeviceId, tenant: TenantId, now: int)
    | Reap(now: int)
    | DeleteToken(token: TokenId, tenant: TenantId)

  predicate Usable(t: Token, now: int) {
    t.usedAt.None? && t.expiresAt > now
  }

  predicate Consumable(r: Registry, token: TokenId, now: int) {
    token in r.tokens && Usable(r.tokens[token], now)
  }

  /** The mTLS admission decision for a certificate with this serial, issued to this device. */
  ghost predicate Admitted(r: Registry, device: DeviceId, serial: nat, now: int) {
    && device in r.devices && !r.devices[device].revoked
    && exists c :: c in r.certs && r.certs[c].device == device && r.certs[c].serial == serial &&
                   r.certs[c].revokedAt.None? && r.certs[c].notBefore <= now <= r.certs[c].notAfter
  }

  predicate ScopeApplies(r: Registry, tenant: TenantId, scope: seq<Parent>) {
    forall i :: 0 <= i < |scope| ==> scope[i] in r.parents && r.parents[scope[i]] == tenant
  }

  function SupersedeOthers(certs: map<CertId, Cert>, device: DeviceId, keep: CertId, now: int): map<CertId, Cert> {
    map c | c in certs ::
      if certs[c].device == device && c != keep && certs[c].revokedAt.None?
      then certs[c].(revokedAt := Some(now)) else certs[c]
  }

  function RevokeAll(certs: map<CertId, Cert>, device: DeviceId, now: int): map<CertId, Cert> {
    map c | c in certs ::
      if certs[c].device == device && certs[c].revokedAt.None? then certs[c].(revokedAt := Some(now)) else certs[c]
  }

  function Memberships(device: DeviceId, scope: seq<Parent>): set<(DeviceId, Parent)> {
    set i | 0 <= i < |scope| :: (device, scope[i])
  }

  ghost predicate Enabled(r: Registry, e: Event) {
    match e
    case CreateToken(token, _, _, _) => token !in r.issued
    case Abandon(token) => token in r.pending
    case Enroll(token, device, cert, _, _) => token in r.pending && device !in r.devices && cert !in r.certs
    case Renew(device, presented, cert, _, now) => Admitted(r, device, presented, now) && cert !in r.certs
    case Checkin(device, presented, now) => Admitted(r, device, presented, now)
    case _ => true
  }

  function Next(r: Registry, e: Event): Registry {
    match e
    case CreateToken(token, tenant, scope, expiresAt) =>
      r.(tokens := r.tokens[token := Token(tenant, scope, None, expiresAt)], issued := r.issued + {token})
    case Consume(token, now) =>
      if !Consumable(r, token, now) then r
      else
        var used := r.tokens[token].(usedAt := Some(now));
        r.(tokens := r.tokens[token := used], pending := r.pending[token := used], consumed := r.consumed + {token})
    case Abandon(token) => r.(pending := r.pending - {token})
    case Enroll(token, device, cert, serial, now) =>
      if token !in r.pending then r
      else if !ScopeApplies(r, r.pending[token].tenant, r.pending[token].scope) then r.(pending := r.pending - {token})
      else
        r.(devices := r.devices[device := Device(r.pending[token].tenant, false)],
           certs := r.certs[cert := Cert(device, serial, now, now + CERT_VALIDITY, None)],
           members := r.members + Memberships(device, r.pending[token].scope),
           pending := r.pending - {token}, origin := r.origin[device := token])
    case Renew(device, _, cert, serial, now) =>
      var issued := Cert(device, serial, now, now + CERT_VALIDITY, None);
      r.(certs := SupersedeOthers(r.certs[cert := issued], device, cert, now))
    case Checkin(device, _, _) =>
      if device in r.devices then r.(devices := r.devices[device := r.devices[device].(revoked := false)]) else r
    case Revoke(device, tenant, now) =>
      if device in r.devices && r.devices[device].tenant == tenant then
        r.(devices := r.devices[device := r.devices[device].(revoked := true)],
           certs := RevokeAll(r.certs, device, now))
      else r
    case Reap(now) =>
      r.(tokens := map t | t in r.tokens && !(r.tokens[t].usedAt.None? && r.tokens[t].expiresAt < now) :: r.tokens[t])
    case DeleteToken(token, tenant) =>
      if token in r.tokens && r.tokens[token].tenant == tenant then r.(tokens := r.tokens - {token}) else r
  }

  ghost predicate IsRun(rs: seq<Registry>, es: seq<Event>) {
    && |rs| == |es| + 1
    && rs[0] == Registry(map[], map[], map[], rs[0].parents, {}, map[], {}, {}, map[])
    && forall i :: 0 <= i < |es| ==> Enabled(rs[i], es[i]) && rs[i + 1] == Next(rs[i], es[i])
  }

  // ----- handlers -----

  class Server {
    var tokens: map<TokenId, Token>
    var devices: map<DeviceId, Device>
    var certs: map<CertId, Cert>
    var parents: map<Parent, TenantId>
    var members: set<(DeviceId, Parent)>
    var pending: map<TokenId, Token>
    var issued: set<TokenId>
    var consumed: set<TokenId>
    var origin: map<DeviceId, TokenId>

    function View(): Registry
      reads this
    {
      Registry(tokens, devices, certs, parents, members, pending, issued, consumed, origin)
    }

    method IssueToken(token: TokenId, tenant: TenantId, scope: seq<Parent>, expiry: int, now: int)
      requires token !in issued
      modifies this
      ensures View() == Next(old(View()), CreateToken(token, tenant, scope, now + expiry))
      ensures tokens == old(tokens)[token := Token(tenant, scope, None, now + expiry)]
    {
      tokens := tokens[token := Token(tenant, scope, None, now + expiry)];
      issued := issued + {token};
    }

    /** Used tokens are kept, whatever their expiry. */
    method ReapExpiredTokens(now: int)
      modifies this
      ensures View() == Next(old(View()), Reap(now))
      ensures forall t :: t in tokens <==>
                t in old(tokens) && (old(tokens)[t].usedAt.Some? || now <= old(tokens)[t].expiresAt)
      ensures forall t :: t in tokens ==> tokens[t] == old(tokens)[t]
    {
      tokens := map t | t in tokens && !(tokens[t].usedAt.None? && tokens[t].expiresAt < now) :: tokens[t];
    }

    /** Read only: the token a consume at the same instant would accept. */
    method Peek(token: TokenId, now: int) returns (t: Option<Token>)
      ensures t.Some? <==> Consumable(View(), token, now)
      ensures t.Some? <==> token in tokens && tokens[token].usedAt == None && now < tokens[token].expiresAt
      ensures t.Some? ==> t.value == tokens[token]
    {
      if token in tokens && tokens[token].usedAt.None? && tokens[token].expiresAt > now {
        return Some(tokens[token]);
      }
      return None;
    }

    method ValidateAndConsume(token: TokenId, now: int) returns (t: Option<Token>)
      modifies this
      ensures View() == Next(old(View()), Consume(token, now))
      ensures t.Some? <==> Consumable(old(View()), token, now)
      ensures t.Some? <==>
                token in old(tokens) && old(tokens)[token].usedAt == None && now < old(tokens)[token].expiresAt
      ensures t.Some? ==> t.value == old(tokens)[token].(usedAt := Some(now)) && tokens == old(tokens)[token := t.value]
      ensures t.None? ==> tokens == old(tokens)
    {
      if token !in tokens || !tokens[token].usedAt.None? || !(tokens[token].expiresAt > now) {
        return None;
      }
      tokens := tokens[token := tokens[token].(usedAt := Some(now))];
      pending := pending[token := tokens[token]];
      consumed := consumed + {token};
      return Some(tokens[token]);
    }

    /** The memberships of a new device; a reference outside the tenant fails the whole enrollment. */
    method ApplyScope(device: DeviceId, tenant: TenantId, scope: seq<Parent>)
      returns (ok: bool, rows: set<(DeviceId, Parent)>)
      ensures ok <==> ScopeApplies(View(), tenant, scope)
      ensures ok <==> forall p :: p in scope ==> p in parents && parents[p] == tenant
      ensures ok ==> rows == Memberships(device, scope)
      ensures ok ==> forall m :: m in rows <==> m.0 == device && m.1 in scope
    {
      rows := {};
      for i := 0 to |scope|
        invariant forall k :: 0 <= k < i ==> scope[k] in parents && parents[scope[k]] == tenant
        invariant rows == Memberships(device, scope[..i])
      {
        if scope[i] !in parents || parents[scope[i]] != tenant {
          return false, {};
        }
        rows := rows + {(device, scope[i])};
        assert forall k :: 0 <= k < i ==> scope[..i + 1][k] == scope[..i][k];
        assert scope[..i + 1][i] == scope[i];
      }
      assert scope[..|scope|] == scope;
      ok := true;
    }

    /** The enrollment transaction: device, memberships and certificate, or nothing. */
    method EnrollCommit(token: TokenId, device: DeviceId, cert: CertId, serial: nat, now: int) returns (ok: bool)
      requires token in pending && device !in devices && cert !in certs
      modifies this
      ensures View() == Next(old(View()), Enroll(token, device, cert, serial, now))
      ensures ok <==> device in devices
      ensures ok <==> forall p :: p in old(pending)[token].scope ==>
                p in old(parents) && old(parents)[p] == old(pending)[token].tenant
      ensures ok ==>
                && devices == old(devices)[device := Device(old(pending)[token].tenant, false)]
                && certs == old(certs)[cert := Cert(device, serial, now, now + 90 * 24 * 3600, None)]
      ensures ok ==> forall m :: m in members <==>
                m in old(members) || (m.0 == device && m.1 in old(pending)[token].scope)
      ensures !ok ==> devices == old(devices) && certs == old(certs) && members == old(members)
    {
      var t := pending[token];
      pending := pending - {token};
      var applies, rows := ApplyScope(device, t.tenant, t.scope);
      if !applies {
        return false;
      }
      devices := devices[device := Device(t.tenant, false)];
      members := members + rows;
      certs := certs[cert := Cert(device, serial, now, now + CERT_VALIDITY, None)];
      origin := origin[device := token];
      return true;
    }

    method RenewCertificate(device: DeviceId, ghost presented: nat, cert: CertId, serial: nat, now: int)
      requires cert !in certs
      modifies this
      ensures View() == Next(old(View()), Renew(device, presented, cert, serial, now))
      ensures certs.Keys == old(certs).Keys + {cert}
      ensures certs[cert] == Cert(device, serial, now, now + 90 * 24 * 3600, None)
      ensures forall c :: c in old(certs) ==>
                certs[c] == if old(certs)[c].device == device && old(certs)[c].revokedAt == None
                            then old(certs)[c].(revokedAt := Some(now)) else old(certs)[c]
    {
      certs := certs[cert := Cert(device, serial, now, now + CERT_VALIDITY, None)];
      certs := map c | c in certs ::
        if certs[c].device == device && c != cert && certs[c].revokedAt.None?
        then certs[c].(revokedAt := Some(now)) else certs[c];
    }

    method RevokeDevice(device: DeviceId, tenant: TenantId, now: int) returns (found: bool)
      modifies this
      ensures View() == Next(old(View()), Revoke(device, tenant, now))
      ensures found <==> device in old(devices) && old(devices)[device].tenant == tenant
      ensures !found ==> devices == old(devices) && certs == old(certs)
      ensures found ==> devices == old(devices)[device := Device(tenant, true)] && certs.Keys == old(certs).Keys
      ensures found ==> forall c :: c in certs ==>
                certs[c] == if old(certs)[c].device == device && old(certs)[c].revokedAt == None
                            then old(certs)[c].(revokedAt := Some(now)) else old(certs)[c]
    {
      if device !in devices || devices[device].tenant != tenant {
        return false;
      }
      devices := devices[device := devices[device].(revoked := true)];
      certs := map c | c in certs ::
        if certs[c].device == device && certs[c].revokedAt.None? then certs[c].(revokedAt := Some(now)) else certs[c];
      return true;
    }
  }

  // ----- invariants -----

  predicate LiveFor(c: Cert, device: DeviceId) {
    c.device == device && c.revokedAt.None?
  }

  predicate SameLive(c: Cert, c': Cert) {
    c.revokedAt.None? && c'.revokedAt.None? && c.device == c'.device
  }

  predicate LiveIn(certs: map<CertId, Cert>, c: CertId, d: DeviceId) {
    c in certs && LiveFor(certs[c], d)
  }

  ghost predicate HasLive(certs: map<CertId, Cert>, d: DeviceId) {
    exists c :: c in certs && LiveFor(certs[c], d)
  }

  /** Certificates belong to devices; the unrevoked ones to devices in good standing, one each. */
  ghost predicate AtMostOneLive(devices: map<DeviceId, Device>, certs: map<CertId, Cert>) {
    && (forall c :: c in certs ==> certs[c].device in devices)
    && (forall c :: c in certs && certs[c].revokedAt.None? ==> !devices[certs[c].device].revoked)
    && (forall c, c' :: c in certs && c' in certs && SameLive(certs[c], certs[c']) ==> c == c')
  }

  ghost predicate AllHaveLive(devices: map<DeviceId, Device>, certs: map<CertId, Cert>) {
    forall d :: d in devices && !devices[d].revoked ==> HasLive(certs, d)
  }

  /** One unrevoked certificate for a device in good standing, none for a revoked one. */
  ghost predicate CertsOk(devices: map<DeviceId, Device>, certs: map<CertId, Cert>) {
    AtMostOneLive(devices, certs) && AllHaveLive(devices, certs)
  }

  /** An unused token row was never consumed; a token between consumption and enrollment was. */
  ghost predicate TokensOk(r: Registry) {
    && (forall t :: t in r.tokens ==> t in r.issued)
    && r.consumed <= r.issued
    && (forall t :: t in r.tokens && r.tokens[t].usedAt.None? ==> t !in r.consumed)
    && (forall t :: t in r.pending ==> t in r.consumed)
  }

  /** Each device was created from a consumed token, and no two from the same one. */
  ghost predicate OriginOk(r: Registry) {
    && r.origin.Keys == r.devices.Keys
    && (forall d :: d in r.origin ==> r.origin[d] in r.consumed && r.origin[d] !in r.pending)
    && (forall d, d' :: d in r.origin && d' in r.origin && r.origin[d] == r.origin[d'] ==> d == d')
  }

  /** No membership crosses tenants. */
  ghost predicate MembersOk(r: Registry) {
    forall m :: m in r.members ==> m.0 in r.devices && m.1 in r.parents && r.parents[m.1] == r.devices[m.0].tenant
  }

  lemma EnrollCerts(devices: map<DeviceId, Device>, certs: map<CertId, Cert>, d: DeviceId, dev: Device, c: CertId,
                    cert: Cert)
    requires CertsOk(devices, certs) && d !in devices && c !in certs && LiveFor(cert, d) && !dev.revoked
    ensures CertsOk(devices[d := dev], certs[c := cert])
  {
    EnrollLive(devices, certs, d, dev, c, cert);
    hide AllHaveLive;
  }

  lemma EnrollLive(devices: map<DeviceId, Device>, certs: map<CertId, Cert>, d: DeviceId, dev: Device, c: CertId,
                   cert: Cert)
    requires AllHaveLive(devices, certs) && c !in certs && LiveFor(cert, d)
    ensures AllHaveLive(devices[d := dev], certs[c := cert])
  {
    var certs' := certs[c := cert];
    assert LiveFor(certs'[c], d);
    forall x | x in devices && !devices[x].revoked ensures HasLive(certs', x) {
      var y :| y in certs && LiveFor(certs[y], x);
      assert LiveFor(certs'[y], x);
    }
  }

  lemma RenewHasLive(certs: map<CertId, Cert>, c: CertId, cert: Cert, now: int, x: DeviceId)
    requires c !in certs && cert.revokedAt.None? && (x == cert.device || HasLive(certs, x))
    ensures HasLive(SupersedeOthers(certs[c := cert], cert.device, c, now), x)
  {
    var certs' := SupersedeOthers(certs[c := cert], cert.device, c, now);
    if x == cert.device {
      assert LiveFor(certs'[c], x);
    } else {
      var y :| y in certs && LiveFor(certs[y], x);
      assert LiveFor(certs'[y], x);
    }
  }

  lemma RenewOne(devices: map<DeviceId, Device>, certs: map<CertId, Cert>, c: CertId, cert: Cert, now: int)
    requires AtMostOneLive(devices, certs) && c !in certs && cert.revokedAt.None?
    requires cert.device in devices && !devices[cert.device].revoked
    ensures AtMostOneLive(devices, SupersedeOthers(certs[c := cert], cert.device, c, now))
  {
    var certs' := SupersedeOthers(certs[c := cert], cert.device, c, now);
    assert forall y :: y in certs' && y != c && certs'[y].revokedAt.None? ==>
        y in certs && certs'[y] == certs[y] && certs[y].device != cert.device;
  }

  lemma RenewCerts(devices: map<DeviceId, Device>, certs: map<CertId, Cert>, c: CertId, cert: Cert, now: int)
    requires CertsOk(devices, certs) && c !in certs && cert.device in devices && !devices[cert.device].revoked
    requires cert.revokedAt.None?
    ensures CertsOk(devices, SupersedeOthers(certs[c := cert], cert.device, c, now))
  {
    hide HasLive, SupersedeOthers, AtMostOneLive;
    RenewOne(devices, certs, c, cert, now);
    forall x | x in devices && !devices[x].revoked
      ensures HasLive(SupersedeOthers(certs[c := cert], cert.device, c, now), x)
    {
      RenewHasLive(certs, c, cert, now, x);
    }
  }

  lemma RevokeHasLive(certs: map<CertId, Cert>, d: DeviceId, now: int, x: DeviceId)
    requires x != d && HasLive(certs, x)
    ensures HasLive(RevokeAll(certs, d, now), x)
  {
    var y :| y in certs && LiveFor(certs[y], x);
    assert LiveFor(RevokeAll(certs, d, now)[y], x);
  }

  lemma RevokeOne(devices: map<DeviceId, Device>, certs: map<CertId, Cert>, d: DeviceId, now: int)
    requires AtMostOneLive(devices, certs) && d in devices
    ensures AtMostOneLive(devices[d := devices[d].(revoked := true)], RevokeAll(certs, d, now))
  {
    var certs' := RevokeAll(certs, d, now);
    assert forall y :: y in certs' && certs'[y].revokedAt.None? ==> certs'[y] == certs[y] && certs[y].device != d;
  }

  lemma RevokeCerts(devices: map<DeviceId, Device>, certs: map<CertId, Cert>, d: DeviceId, now: int)
    requires CertsOk(devices, certs) && d in devices
    ensures CertsOk(devices[d := devices[d].(revoked := true)], RevokeAll(certs, d, now))
  {
    hide HasLive, RevokeAll, AtMostOneLive;
    RevokeOne(devices, certs, d, now);
    forall x | x in devices && x != d && !devices[x].revoked ensures HasLive(RevokeAll(certs, d, now), x) {
      RevokeHasLive(certs, d, now, x);
    }
  }

  lemma CertsStep(r: Registry, e: Event)
    requires CertsOk(r.devices, r.certs) && Enabled(r, e)
    ensures CertsOk(Next(r, e).devices, Next(r, e).certs)
  {
    hide CertsOk, SupersedeOthers, RevokeAll;
    match e
    case Enroll(token, device, cert, serial, now) =>
      EnrollCerts(r.devices, r.certs, device, Device(r.pending[token].tenant, false), cert,
                  Cert(device, serial, now, now + CERT_VALIDITY, None));
    case Renew(device, _, cert, serial, now) =>
      RenewCerts(r.devices, r.certs, cert, Cert(device, serial, now, now + CERT_VALIDITY, None), now);
    case Revoke(device, _, now) =>
      if device in r.devices {
        RevokeCerts(r.devices, r.certs, device, now);
      }
    case Checkin(device, _, _) =>
      assert r.devices[device := r.devices[device].(revoked := false)] == r.devices;
    case _ =>
  }

  lemma TokensStep(r: Registry, e: Event)
    requires TokensOk(r) && Enabled(r, e)
    ensures TokensOk(Next(r, e))
  {
    hide SupersedeOthers, RevokeAll, Memberships, Admitted, ScopeApplies;
  }

  lemma OriginEnroll(r: Registry, e: Event)
    requires TokensOk(r) && OriginOk(r) && Enabled(r, e) && e.Enroll?
    ensures OriginOk(Next(r, e))
  {
    hide SupersedeOthers, RevokeAll, Memberships, Admitted, ScopeApplies;
  }

  lemma OriginOther(r: Registry, e: Event)
    requires TokensOk(r) && OriginOk(r) && Enabled(r, e) && !e.Enroll?
    ensures OriginOk(Next(r, e))
  {
    hide SupersedeOthers, RevokeAll, Memberships, Admitted, ScopeApplies;
  }

  lemma OriginStep(r: Registry, e: Event)
    requires TokensOk(r) && OriginOk(r) && Enabled(r, e)
    ensures OriginOk(Next(r, e))
  {
    hide *;
    if e.Enroll? {
      OriginEnroll(r, e);
    } else {
      OriginOther(r, e);
    }
  }

  lemma MembersStep(r: Registry, e: Event)
    requires MembersOk(r) && Enabled(r, e)
    ensures MembersOk(Next(r, e))
  {
  }

  lemma {:induction false} RegistryOk(rs: seq<Registry>, es: seq<Event>, n: nat)
    requires IsRun(rs, es) && n <= |es|
    ensures CertsOk(rs[n].devices, rs[n].certs) && TokensOk(rs[n])
    ensures OriginOk(rs[n]) && MembersOk(rs[n])
  {
    if n > 0 {
      RegistryOk(rs, es, n - 1);
      hide CertsOk, TokensOk, OriginOk, MembersOk, Next, Enabled;
      CertsStep(rs[n - 1], es[n - 1]);
      TokensStep(rs[n - 1], es[n - 1]);
      OriginStep(rs[n - 1], es[n - 1]);
      MembersStep(rs[n - 1], es[n - 1]);
    }
  }

  // ----- over whole runs -----

  /** A token row disappears only if unused and expired, or by its own tenant's request. */
  lemma TokenRowKept(r: Registry, e: Event, t: TokenId)
    requires t in r.tokens && t !in Next(r, e).tokens
    ensures || (e.Reap? && r.tokens[t].usedAt == None && r.tokens[t].expiresAt < e.now)
            || (e.DeleteToken? && e.token == t && e.tenant == r.tokens[t].tenant)
  {
    hide SupersedeOthers, RevokeAll, Memberships, Admitted, ScopeApplies;
  }

  lemma ConsumedStep(r: Registry, e: Event, t: TokenId)
    requires t in r.consumed
    ensures t in Next(r, e).consumed
  {
    hide SupersedeOthers, RevokeAll, Memberships, Admitted, ScopeApplies;
  }

  lemma {:induction false} ConsumedStays(rs: seq<Registry>, es: seq<Event>, i: nat, k: nat, t: TokenId)
    requires IsRun(rs, es) && i <= k <= |es| && t in rs[i].consumed
    ensures t in rs[k].consumed
  {
    hide Next, Enabled;
    if i < k {
      ConsumedStays(rs, es, i, k - 1, t);
      ConsumedStep(rs[k - 1], es[k - 1], t);
    }
  }

  /** A token is consumed at most once. */
  lemma TokenConsumedAtMostOnce(rs: seq<Registry>, es: seq<Event>, i: nat, k: nat)
    requires IsRun(rs, es) && i < |es| && k < |es| && es[i].Consume? && es[k].Consume? && es[i].token == es[k].token
    requires Consumable(rs[i], es[i].token, es[i].now) && Consumable(rs[k], es[k].token, es[k].now)
    ensures i == k
  {
    var lo, hi := if i < k then i else k, if i < k then k else i;
    if lo < hi {
      ConsumedStays(rs, es, lo + 1, hi, es[lo].token);
      RegistryOk(rs, es, hi);
    }
  }

  lemma {:induction false} InjectionSize(f: map<DeviceId, TokenId>, s: set<TokenId>)
    requires forall d :: d in f ==> f[d] in s
    requires forall d, d' :: d in f && d' in f && f[d] == f[d'] ==> d == d'
    ensures |f.Keys| <= |s|
    decreases |f.Keys|
  {
    if d :| d in f {
      var f' := f - {d};
      assert f'.Keys == f.Keys - {d};
      InjectionSize(f', s - {f[d]});
    } else {
      assert f.Keys == {};
    }
  }

  /** Devices never outnumber consumed tokens. */
  lemma DevicesNeedTokens(rs: seq<Registry>, es: seq<Event>, n: nat)
    requires IsRun(rs, es) && n <= |es|
    ensures |rs[n].devices.Keys| <= |rs[n].consumed|
  {
    RegistryOk(rs, es, n);
    InjectionSize(rs[n].origin, rs[n].consumed);
  }

  /** A device in good standing has exactly one unrevoked certificate, a revoked one has none. */
  lemma OneLiveCertificate(rs: seq<Registry>, es: seq<Event>, n: nat, d: DeviceId)
    requires IsRun(rs, es) && n <= |es| && d in rs[n].devices
    ensures HasLive(rs[n].certs, d) <==> !rs[n].devices[d].revoked
    ensures forall c, c' :: LiveIn(rs[n].certs, c, d) && LiveIn(rs[n].certs, c', d) ==> c == c'
  {
    RegistryOk(rs, es, n);
    forall c, c' | LiveIn(rs[n].certs, c, d) && LiveIn(rs[n].certs, c', d) ensures c == c' {
      assert SameLive(rs[n].certs[c], rs[n].certs[c']);
    }
  }

  lemma RevokedStep(r: Registry, e: Event, d: DeviceId)
    requires Enabled(r, e) && d in r.devices && r.devices[d].revoked
    ensures d in Next(r, e).devices && Next(r, e).devices[d].revoked
  {
    hide SupersedeOthers, RevokeAll, Memberships, ScopeApplies;
  }

  /** Once revoked, a device stays revoked and none of its requests is admitted, whatever certificate it presents. */
  lemma {:induction false} RevokedForever(rs: seq<Registry>, es: seq<Event>, i: nat, k: nat, d: DeviceId)
    requires IsRun(rs, es) && i <= k <= |es| && d in rs[i].devices && rs[i].devices[d].revoked
    ensures d in rs[k].devices && rs[k].devices[d].revoked
    ensures forall serial, now :: !Admitted(rs[k], d, serial, now)
    ensures k < |es| ==> !(es[k].Renew? && es[k].device == d) && !(es[k].Checkin? && es[k].device == d)
  {
    if i < k {
      RevokedForever(rs, es, i, k - 1, d);
      RevokedStep(rs[k - 1], es[k - 1], d);
      hide Next;
    }
  }

  // ----- admission -----

  /** Step i gave the device its certificate, by enrollment or renewal. */
  ghost predicate Certified(rs: seq<Registry>, es: seq<Event>, i: nat, d: DeviceId)
    requires |rs| == |es| + 1 && i < |es|
  {
    && d in rs[i + 1].devices
    && ((es[i].Enroll? && es[i].device == d && d !in rs[i].devices) || (es[i].Renew? && es[i].device == d))
  }

  /** The step neither renews the device's certificate nor revokes the device. */
  predicate LeavesAlone(e: Event, d: DeviceId, tenant: TenantId) {
    !(e.Renew? && e.device == d) && !(e.Revoke? && e.device == d && e.tenant == tenant)
  }

  /** What certification gives: a device in good standing and its certificate, valid for 90 days. */
  predicate Holds(r: Registry, d: DeviceId, tenant: TenantId, c: CertId, serial: nat, since: int) {
    && d in r.devices && r.devices[d] == Device(tenant, false)
    && c in r.certs && r.certs[c] == Cert(d, serial, since, since + 90 * 24 * 3600, None)
  }

  lemma CertifiedHolds(rs: seq<Registry>, es: seq<Event>, i: nat, d: DeviceId)
    requires IsRun(rs, es) && i < |es| && Certified(rs, es, i, d)
    ensures Holds(rs[i + 1], d, rs[i + 1].devices[d].tenant, es[i].cert, es[i].serial, es[i].now)
  {
    hide Memberships, ScopeApplies, Consumable, IsRun;
    RunStep(rs, es, i);
  }

  lemma RunStep(rs: seq<Registry>, es: seq<Event>, i: nat)
    requires IsRun(rs, es) && i < |es|
    ensures Enabled(rs[i], es[i]) && rs[i + 1] == Next(rs[i], es[i])
  {
  }

  lemma HoldsStep(r: Registry, e: Event, d: DeviceId, tenant: TenantId, c: CertId, serial: nat, since: int)
    requires Enabled(r, e) && Holds(r, d, tenant, c, serial, since) && LeavesAlone(e, d, tenant)
    ensures Holds(Next(r, e), d, tenant, c, serial, since)
  {
    hide Memberships, ScopeApplies, Consumable, Admitted;
  }

  lemma {:induction false} HoldsOn(rs: seq<Registry>, es: seq<Event>, i: nat, n: nat, d: DeviceId)
    requires IsRun(rs, es) && i < n <= |es| && Certified(rs, es, i, d)
    requires forall k :: i < k < n ==> LeavesAlone(es[k], d, rs[i + 1].devices[d].tenant)
    ensures Holds(rs[n], d, rs[i + 1].devices[d].tenant, es[i].cert, es[i].serial, es[i].now)
  {
    hide Next, Enabled, Holds;
    CertifiedHolds(rs, es, i, d);
    if i < n - 1 {
      HoldsOn(rs, es, i, n - 1, d);
      RunStep(rs, es, n - 1);
      HoldsStep(rs[n - 1], es[n - 1], d, rs[i + 1].devices[d].tenant, es[i].cert, es[i].serial, es[i].now);
    }
  }

  /**
  From its certification until the next renewal or its revocation, a device is
  admitted exactly with the certificate issued then, for 90 days.
  */
  lemma AdmittedExactly(rs: seq<Registry>, es: seq<Event>, i: nat, n: nat, d: DeviceId, serial: nat, now: int)
    requires IsRun(rs, es) && i < n <= |es| && Certified(rs, es, i, d)
    requires forall k :: i < k < n ==> LeavesAlone(es[k], d, rs[i + 1].devices[d].tenant)
    ensures Admitted(rs[n], d, serial, now) <==>
            serial == es[i].serial && es[i].now <= now <= es[i].now + 90 * 24 * 3600
  {
    HoldsOn(rs, es, i, n, d);
    RegistryOk(rs, es, n);
    hide Next, Enabled, IsRun, AllHaveLive;
  }
}
