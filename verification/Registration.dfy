/** Registration tokens: uses are counted and never overdrawn. */
module Registration {
  import opened Types
  import opened Tables
  import opened Spec
  import opened Machine
  import Base64Url

  ghost predicate Funded(cfg: Config, s: State) {
    && WithinAllowance(s.regTokens)
    && (cfg.mode.Push? ==> |s.users| <= TotalUses(s.regTokens))
  }

  /** A request that gets past the push policy has counted at least one use. */
  lemma PolicyCharges(cfg: Config, s: State, token: Option<string>, hook: Result<()>)
    requires WithinAllowance(s.regTokens)
    ensures var o := RegistrationPolicy(cfg, s, token, hook);
            && WithinAllowance(o.state.regTokens)
            && TotalUses(s.regTokens) <= TotalUses(o.state.regTokens)
            && TotalAllowance(o.state.regTokens) == TotalAllowance(s.regTokens)
            && (cfg.mode.Push? && o.result.Ok? ==> TotalUses(s.regTokens) < TotalUses(o.state.regTokens))
  {
    if cfg.mode.Push? && token.Some? {
      ConsumeCounts(s.regTokens, TokenHash(cfg, token.value), s.now);
    }
  }

  lemma RegisterCharges(cfg: Config, s: State, pubkey: string, token: Option<string>, hook: Result<()>,
                        userId: string, deviceId: string)
    requires Funded(cfg, s)
    ensures var r := Register(cfg, s, pubkey, token, hook, userId, deviceId).state;
            Funded(cfg, r) && TotalAllowance(r.regTokens) == TotalAllowance(s.regTokens)
  {
    PolicyCharges(cfg, s, token, hook);
    hide RegistrationPolicy, DecodeKey;
    var r := Register(cfg, s, pubkey, token, hook, userId, deviceId).state;
    assert |r.users| <= |s.users| + 1;
  }

  /** Uses granted by the administrator in one step. */
  function Grant(cfg: Config, e: Event): (n: nat) {
    if e.CreatesRegToken? && e.adminKey == cfg.adminKey && e.maxUses > 0 then e.maxUses else 0
  }

  lemma KickKeepsUsers(s: State, user: string)
    ensures Kick(s, user).users.Keys == s.users.Keys
  {
    hide DevicesOf, DeviceIds;
  }

  lemma AccountCharges(cfg: Config, s: State, e: Event)
    requires IsAccount(e) && Funded(cfg, s)
    ensures var r := AfterAccount(cfg, s, e);
            Funded(cfg, r) && TotalAllowance(r.regTokens) == TotalAllowance(s.regTokens) + Grant(cfg, e)
  {
    hide Register, Kick;
    match e
    case Registers(pubkey, regToken, hook, u, d) => RegisterCharges(cfg, s, pubkey, regToken, hook, u, d);
    case CreatesRegToken(adminKey, raw, expiresIn, maxUses, id) =>
      var r := AfterAccount(cfg, s, e);
      if adminKey == cfg.adminKey {
        AppendToken(s.regTokens, r.regTokens[|s.regTokens|]);
      }
    case Suspends(adminKey, user, reason) =>
      var marked := SetSuspended(s, user, true, reason).state;
      KickKeepsUsers(marked, user);
      assert AfterAccount(cfg, s, e).users.Keys == s.users.Keys;
      SameSize(AfterAccount(cfg, s, e).users, s.users);
    case Unsuspends(adminKey, user) =>
      SameSize(AfterAccount(cfg, s, e).users, s.users);
  }

  lemma SameSize(a: map<string, User>, b: map<string, User>)
    requires a.Keys == b.Keys
    ensures |a| == |b|
  {
    assert |a| == |a.Keys| && |b| == |b.Keys|;
  }

  lemma RevokeKeepsUsers(cfg: Config, s: State, e: Event)
    requires IsRelationship(e)
    ensures AfterRelationship(cfg, s, e).users.Keys == s.users.Keys
  {
    hide Kick, FindRelationship, DeleteRelationship;
    if e.Revokes? && Revoke(cfg, s, e.auth, e.id).result.Ok? {
      var user := e.auth.claims.sub;
      var deleted := s.(relationships := DeleteRelationship(s.relationships, user, e.id));
      KickKeepsUsers(deleted, user);
      KickKeepsUsers(Kick(deleted, user), FindRelationship(s.relationships, user, e.id).value.peerId);
    }
  }

  /** Outside account management neither the users nor the registration tokens change. */
  lemma OthersKeepUsers(cfg: Config, s: State, e: Event)
    requires !IsAccount(e)
    ensures var r := After(cfg, s, e); r.users.Keys == s.users.Keys && r.regTokens == s.regTokens
  {
    hide AfterAccount, AfterAuth, AfterExchange, AfterRelationship, AfterBroker;
    if IsRelationship(e) {
      RevokeKeepsUsers(cfg, s, e);
    }
  }

  lemma StepCharges(cfg: Config, s: State, e: Event)
    requires Funded(cfg, s)
    ensures var r := After(cfg, s, e);
            Funded(cfg, r) && TotalAllowance(r.regTokens) == TotalAllowance(s.regTokens) + Grant(cfg, e)
  {
    if IsAccount(e) {
      hide AfterAccount;
      AccountCharges(cfg, s, e);
    } else {
      hide After, WithinAllowance, TotalUses, TotalAllowance;
      OthersKeepUsers(cfg, s, e);
      SameSize(After(cfg, s, e).users, s.users);
    }
  }

  /** Uses granted by the administrator in the first `k` steps. */
  ghost function GrantedUses(p: Path, k: nat): (n: nat)
    requires k <= |p.events|
  {
    if k == 0 then 0 else GrantedUses(p, k - 1) + Grant(p.cfg, p.events[k - 1])
  }

  /** Along every run no token is used beyond its allowance, and under the push policy users
      never outnumber counted uses, which never exceed what the administrator granted, also
      when a token is consumed by a request that then fails. */
  lemma {:induction false} RegistrationConservation(p: Path, k: nat)
    requires p.IsRun() && k < |p.states|
    ensures WithinAllowance(p.states[k].regTokens)
    ensures TotalAllowance(p.states[k].regTokens) == GrantedUses(p, k)
    ensures TotalUses(p.states[k].regTokens) <= GrantedUses(p, k)
    ensures p.cfg.mode.Push? ==> |p.states[k].users| <= TotalUses(p.states[k].regTokens)
  {
    hide After, Allowed;
    if k > 0 {
      RegistrationConservation(p, k - 1);
      assert p.Steps(k - 1);
      StepCharges(p.cfg, p.states[k - 1], p.events[k - 1]);
    }
    UsesWithinAllowance(p.states[k].regTokens);
  }

  /** Under the push policy a request passes exactly when its token counts a use. */
  lemma PolicyPassesIff(cfg: Config, s: State, token: string, hook: Result<()>)
    requires cfg.mode.Push?
    ensures var o := RegistrationPolicy(cfg, s, Some(token), hook);
            && (o.result.Ok? <==> Successes(s.regTokens, cfg.crypto.hmac(cfg.tokenHashKey, token), [s.now]) == 1)
            && (o.result.Err? ==> o == Outcome(s, Err(Forbidden)))
  {
    var hash := TokenHash(cfg, token);
    assert Successes(Consume(s.regTokens, hash, s.now), hash, []) == 0;
    if CountUsable(s.regTokens, hash, s.now) == 0 {
      ConsumesNothing(s.regTokens, hash, s.now);
    }
  }

  lemma {:induction false} ConsumesNothing(rows: seq<RegToken>, hash: seq<byte>, now: nat)
    requires CountUsable(rows, hash, now) == 0
    ensures Consume(rows, hash, now) == rows
  {
    if rows != [] {
      ConsumesNothing(rows[1..], hash, now);
    }
  }

  // ── What one token admits over a run ────────────────────────────────────

  /** The step is a registration that presents the token with this hash. */
  predicate Presents(cfg: Config, e: Event, hash: seq<byte>) {
    e.Registers? && e.regToken.Some? && cfg.crypto.hmac(cfg.tokenHashKey, e.regToken.value) == hash
  }

  /** It gets past the policy. */
  predicate Passes(cfg: Config, s: State, e: Event)
    requires e.Registers?
  {
    RegistrationPolicy(cfg, s, e.regToken, e.hook).result.Ok?
  }

  /** When the token is presented in steps `i` to `k`. */
  ghost function Times(p: Path, i: nat, k: nat, hash: seq<byte>): (times: seq<nat>)
    requires i <= k <= |p.events| < |p.states|
    decreases k - i
  {
    if i == k then []
    else (if Presents(p.cfg, p.events[i], hash) then [p.states[i].now] else []) + Times(p, i + 1, k, hash)
  }

  /** How many of those registrations get past the policy. */
  ghost function Admitted(p: Path, i: nat, k: nat, hash: seq<byte>): (n: nat)
    requires i <= k <= |p.events| < |p.states|
    decreases k - i
  {
    if i == k then 0
    else (if Presents(p.cfg, p.events[i], hash) && Passes(p.cfg, p.states[i], p.events[i]) then 1 else 0)
         + Admitted(p, i + 1, k, hash)
  }

  /** The step creates no token with this hash. */
  predicate OtherToken(cfg: Config, e: Event, hash: seq<byte>) {
    e.CreatesRegToken? ==> cfg.crypto.hmac(cfg.tokenHashKey, Base64Url.Encode(e.raw)) != hash
  }

  /** What the step makes of the token's row. */
  ghost predicate RowFollows(cfg: Config, s: State, e: Event, r: State, hash: seq<byte>, n: nat)
    requires n < |s.regTokens|
  {
    && OnlyToken(r.regTokens, hash, n)
    && (if Presents(cfg, e, hash)
        then r.regTokens == Consume(s.regTokens, hash, s.now)
             && (Passes(cfg, s, e) <==> CountUsable(s.regTokens, hash, s.now) != 0)
        else r.regTokens[n] == s.regTokens[n])
  }

  lemma RegisterRowStep(cfg: Config, s: State, e: Event, hash: seq<byte>, n: nat)
    requires e.Registers? && cfg.mode.Push? && OnlyToken(s.regTokens, hash, n)
    ensures RowFollows(cfg, s, e, RegistrationPolicy(cfg, s, e.regToken, e.hook).state, hash, n)
  {
    hide CountUsable;
  }

  lemma RegisterOnlyConsumes(cfg: Config, s: State, e: Event)
    requires e.Registers?
    ensures AfterAccount(cfg, s, e).regTokens == RegistrationPolicy(cfg, s, e.regToken, e.hook).state.regTokens
  {
    hide RegistrationPolicy, DecodeKey;
  }

  lemma AccountRowStep(cfg: Config, s: State, e: Event, hash: seq<byte>, n: nat)
    requires IsAccount(e) && cfg.mode.Push? && OnlyToken(s.regTokens, hash, n) && OtherToken(cfg, e, hash)
    ensures RowFollows(cfg, s, e, AfterAccount(cfg, s, e), hash, n)
  {
    if e.Registers? {
      hide AfterAccount, RegistrationPolicy, CountUsable, OnlyToken;
      RegisterRowStep(cfg, s, e, hash, n);
      RegisterOnlyConsumes(cfg, s, e);
    } else {
      hide Register, Kick, RegistrationPolicy;
    }
  }

  lemma TokenRowStep(cfg: Config, s: State, e: Event, hash: seq<byte>, n: nat)
    requires cfg.mode.Push? && OnlyToken(s.regTokens, hash, n) && OtherToken(cfg, e, hash)
    ensures RowFollows(cfg, s, e, After(cfg, s, e), hash, n)
  {
    if IsAccount(e) {
      hide AfterAccount;
      AccountRowStep(cfg, s, e, hash, n);
    } else {
      hide After;
      OthersKeepUsers(cfg, s, e);
    }
  }

  /** The registrations of a run are attempts on the token's row, whatever lies between. */
  lemma {:induction false} AdmittedIsSuccesses(p: Path, i: nat, k: nat, hash: seq<byte>, n: nat)
    requires p.Valid() && i <= k <= |p.events| && p.cfg.mode.Push? && OnlyToken(p.states[i].regTokens, hash, n)
    requires forall j :: i <= j < k ==> OtherToken(p.cfg, p.events[j], hash)
    ensures Admitted(p, i, k, hash) == Successes(p.states[i].regTokens, hash, Times(p, i, k, hash))
    decreases k - i
  {
    hide After, Allowed, OtherToken, Presents, Passes, OnlyToken, Consume, CountUsable;
    if i < k {
      var s, e, rest := p.states[i], p.events[i], Times(p, i + 1, k, hash);
      assert p.Steps(i);
      TokenRowStep(p.cfg, s, e, hash, n);
      AdmittedIsSuccesses(p, i + 1, k, hash, n);
      if Presents(p.cfg, e, hash) {
        assert ([s.now] + rest)[1..] == rest;
      } else {
        assert [] + rest == rest;
        SuccessesAreExact(s.regTokens, hash, n, rest);
        SuccessesAreExact(p.states[i + 1].regTokens, hash, n, rest);
      }
    }
  }

  lemma NewTokenRow(cfg: Config, s: State, e: Event)
    requires e.CreatesRegToken? && e.adminKey == cfg.adminKey
    requires forall row | row in s.regTokens :: row.tokenHash != cfg.crypto.hmac(cfg.tokenHashKey, Base64Url.Encode(e.raw))
    ensures var r, hash, n := After(cfg, s, e), cfg.crypto.hmac(cfg.tokenHashKey, Base64Url.Encode(e.raw)), |s.regTokens|;
            && OnlyToken(r.regTokens, hash, n)
            && r.regTokens[n] == RegToken(e.id, hash, s.now, s.now + e.expiresIn, e.maxUses, 0)
  {
    hide Register, Suspend, Unsuspend, AfterAuth, AfterExchange, AfterRelationship, AfterBroker;
    var r, n := After(cfg, s, e), |s.regTokens|;
    assert r.regTokens == s.regTokens + [r.regTokens[n]];
    forall j | 0 <= j < n ensures r.regTokens[j].tokenHash != cfg.crypto.hmac(cfg.tokenHashKey, Base64Url.Encode(e.raw)) {
      assert r.regTokens[j] in s.regTokens;
    }
  }

  /** In every run under the push policy, a token the administrator creates is good for exactly
      its number of uses: as many registrations with it get past the policy as present it before
      its expiry, up to `maxUses`. Tokens are random, so no two hash alike. */
  lemma TokenAdmitsExactly(p: Path, i: nat, k: nat)
    requires p.IsRun() && p.cfg.mode.Push? && i < k <= |p.events|
    requires p.events[i].CreatesRegToken? && p.events[i].adminKey == p.cfg.adminKey
    requires var hash := p.cfg.crypto.hmac(p.cfg.tokenHashKey, Base64Url.Encode(p.events[i].raw));
             && (forall row | row in p.states[i].regTokens :: row.tokenHash != hash)
             && (forall j :: i < j < k ==> OtherToken(p.cfg, p.events[j], hash))
    ensures var e, hash := p.events[i], p.cfg.crypto.hmac(p.cfg.tokenHashKey, Base64Url.Encode(p.events[i].raw));
            var presented := Times(p, i + 1, k, hash);
            Admitted(p, i + 1, k, hash)
            == if e.maxUses <= 0 then 0 else Min(e.maxUses, InTime(presented, p.states[i].now + e.expiresIn))
  {
    hide After, Allowed, OtherToken, OnlyToken, Admitted, Times, Successes, InTime;
    var e, hash, n := p.events[i], p.cfg.crypto.hmac(p.cfg.tokenHashKey, Base64Url.Encode(p.events[i].raw)), |p.states[i].regTokens|;
    assert p.Steps(i);
    NewTokenRow(p.cfg, p.states[i], e);
    AdmittedIsSuccesses(p, i + 1, k, hash, n);
    SuccessesAreExact(p.states[i + 1].regTokens, hash, n, Times(p, i + 1, k, hash));
  }
}
