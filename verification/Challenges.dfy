/** Each token is paid for with one fresh challenge. */
module Challenges {
  import opened Types
  import opened Tables
  import opened Spec
  import opened Machine
  import opened AuthInvariant
  import opened Revocation
  import opened Replies
  import opened Accounts
  import Base64Url

  /** The step issues a challenge to `user`. */
  predicate Challenged(s: State, e: Event, user: string) {
    e.AsksChallenge? && e.user == user && user in s.users
  }

  /** The step is an attempt to verify `user`, successful or not. */
  predicate Attempted(e: Event, user: string) {
    e.Verifies? && e.user == user
  }

  /** Neither a newer challenge nor an attempt for `user` lies between. */
  ghost predicate Untouched(p: Path, user: string, from: nat, to: nat)
    requires |p.states| == |p.events| + 1 && to <= |p.events|
  {
    forall j :: from < j < to ==> !Challenged(p.states[j], p.events[j], user) && !Attempted(p.events[j], user)
  }

  /** Step `i` issued the challenge that is still outstanding before step `k`. */
  ghost predicate Outstanding(p: Path, i: nat, k: nat, user: string)
    requires |p.states| == |p.events| + 1 && i < k <= |p.events|
  {
    && Challenged(p.states[i], p.events[i], user)
    && Untouched(p, user, i, k)
    && user in p.states[k].challenges
    && p.states[k].challenges[user] == Challenge(p.events[i].nonce, p.states[i].now + CHALLENGE_TTL_SECS)
  }

  /** How the user's challenge changes from `s` to `r`. */
  ghost predicate ChallengeFollows(s: State, e: Event, r: State, user: string) {
    && (Challenged(s, e, user) ==>
          r.challenges == s.challenges[user := Challenge(e.nonce, s.now + CHALLENGE_TTL_SECS)])
    && (Attempted(e, user) ==> user !in r.challenges)
    && (!Challenged(s, e, user) && user in r.challenges ==>
          user in s.challenges && r.challenges[user] == s.challenges[user])
  }

  lemma AuthChallenge(cfg: Config, s: State, e: Event, user: string)
    requires IsAuth(e)
    ensures ChallengeFollows(s, e, AfterAuth(cfg, s, e), user)
  {
    hide VerifyChecks, Snapshot;
  }

  /** Only authentication requests and restarts touch the challenges. */
  lemma ChallengeFrame(cfg: Config, s: State, e: Event)
    ensures var r := After(cfg, s, e);
            if IsAuth(e) then r == AfterAuth(cfg, s, e)
            else r.challenges == if e.Restarts? then map[] else s.challenges
  {
    hide AfterAccount, AfterAuth, AfterExchange, AfterRelationship, AfterBroker;
    if IsAccount(e) {
      assert After(cfg, s, e) == AfterAccount(cfg, s, e);
    } else if IsExchange(e) {
      assert After(cfg, s, e) == AfterExchange(cfg, s, e);
    } else if IsRelationship(e) {
      assert After(cfg, s, e) == AfterRelationship(cfg, s, e);
    }
  }

  /** How one step changes a user's challenge. */
  lemma ChallengeStep(cfg: Config, s: State, e: Event, user: string)
    ensures ChallengeFollows(s, e, After(cfg, s, e), user)
  {
    hide After, AfterAuth;
    ChallengeFrame(cfg, s, e);
    if IsAuth(e) {
      AuthChallenge(cfg, s, e, user);
    }
  }

  /** A stored challenge is the one most recently issued to that user, with no attempt since. */
  lemma {:induction false} ChallengeOrigin(p: Path, k: nat, user: string) returns (i: nat)
    requires p.IsRun() && k < |p.states| && user in p.states[k].challenges
    ensures i < k && Outstanding(p, i, k, user)
  {
    hide After, Allowed;
    assert k > 0;
    var s, e := p.states[k - 1], p.events[k - 1];
    assert p.Steps(k - 1);
    ChallengeStep(p.cfg, s, e, user);
    if Challenged(s, e, user) {
      i := k - 1;
    } else {
      i := ChallengeOrigin(p, k - 1, user);
      assert Untouched(p, user, i, k);
    }
  }

  /** Step `i` issued the challenge that step `j` spends on a token: the latest one for that
      user, not attempted since, at most sixty seconds old, and its nonce is what a device of
      that user signed. */
  ghost predicate Pays(p: Path, i: nat, j: nat)
    requires |p.states| == |p.events| + 1 && j < |p.events| && p.events[j].Verifies?
  {
    var s, e := p.states[j], p.events[j];
    && i < j && Outstanding(p, i, j, e.user)
    && s.now <= p.states[i].now + CHALLENGE_TTL_SECS
    && exists d, sig :: d in s.devices && d.userId == e.user && d.deviceId == e.device
                        && p.cfg.crypto.edVerify(d.pubkey, p.events[i].nonce, sig)
  }

  /** Every token is paid for. */
  lemma TokenIsPaid(p: Path, j: nat)
    requires p.IsRun() && j < |p.events| && Issues(p.cfg, p.states[j], p.events[j])
    ensures exists i: nat :: Pays(p, i, j)
  {
    hide After, Snapshot;
    var i := ChallengeOrigin(p, j, p.events[j].user);
    assert Pays(p, i, j);
  }

  /** An attempt spends the outstanding challenge whether it succeeds or fails: a token for
      the same user signed later is paid with a challenge issued after the attempt. */
  lemma AttemptSpends(p: Path, j: nat, i: nat, k: nat)
    requires p.IsRun() && j < k < |p.events| && p.events[k].Verifies? && Pays(p, i, k)
    requires Attempted(p.events[j], p.events[k].user)
    ensures j < i
  {
    hide After, Allowed;
    assert p.events[i].AsksChallenge?;
    assert !(i < j < k);
  }

  ghost function ChallengeOf(p: Path, j: nat): (i: nat)
    requires p.IsRun() && j < |p.events| && Issues(p.cfg, p.states[j], p.events[j])
    ensures Pays(p, i, j)
  {
    TokenIsPaid(p, j);
    var i: nat :| Pays(p, i, j);
    i
  }

  /** No two tokens are paid with the same challenge. */
  lemma ChallengeOfIsInjective(p: Path, j: nat, k: nat)
    requires p.IsRun() && j < |p.events| && k < |p.events|
    requires Issues(p.cfg, p.states[j], p.events[j]) && Issues(p.cfg, p.states[k], p.events[k])
    ensures ChallengeOf(p, j) == ChallengeOf(p, k) <==> j == k
  {
    hide After, Allowed, Issues;
    var i := ChallengeOf(p, j);
    if i == ChallengeOf(p, k) {
      assert p.events[j].user == p.events[i].user == p.events[k].user;
      if j < k {
        AttemptSpends(p, j, i, k);
      } else if k < j {
        AttemptSpends(p, k, i, j);
      }
    }
  }

  // ── Verification told from the run ──────────────────────────────────────

  /** The challenge of step `i` is the user's latest, unattempted, and the server has not
      restarted since. */
  ghost predicate Latest(p: Path, i: nat, k: nat, user: string)
    requires |p.states| == |p.events| + 1 && k <= |p.events|
  {
    && i < k && Challenged(p.states[i], p.events[i], user) && Untouched(p, user, i, k)
    && forall j :: i < j < k ==> !p.events[j].Restarts?
  }

  lemma AuthStored(cfg: Config, s: State, e: Event, user: string)
    requires IsAuth(e)
    ensures user in AfterAuth(cfg, s, e).challenges
            <==> Challenged(s, e, user) || (user in s.challenges && !Attempted(e, user))
  {
    hide VerifyChecks, Snapshot;
  }

  /** Whether a challenge is stored after a step. */
  lemma StoredStep(cfg: Config, s: State, e: Event, user: string)
    ensures user in After(cfg, s, e).challenges
            <==> Challenged(s, e, user) || (user in s.challenges && !Attempted(e, user) && !e.Restarts?)
  {
    hide After, AfterAuth;
    ChallengeFrame(cfg, s, e);
    if IsAuth(e) {
      AuthStored(cfg, s, e, user);
    }
  }

  /** In every reachable state a user's stored challenge is the latest one, if unattempted and
      not lost in a restart. */
  lemma {:induction false} StoredIff(p: Path, k: nat, user: string)
    requires p.IsRun() && k < |p.states|
    ensures user in p.states[k].challenges <==> exists i: nat :: Latest(p, i, k, user)
    ensures forall i: nat | Latest(p, i, k, user) ::
              user in p.states[k].challenges
              && p.states[k].challenges[user] == Challenge(p.events[i].nonce, p.states[i].now + 60)
  {
    hide After, Allowed, Challenged, Attempted;
    if k > 0 {
      var j := k - 1;
      var s, e := p.states[j], p.events[j];
      StoredIff(p, j, user);
      assert p.Steps(j);
      StoredStep(p.cfg, s, e, user);
      ChallengeStep(p.cfg, s, e, user);
      LatestStep(p, j, k, user);
      if Challenged(s, e, user) {
        assert Latest(p, j, k, user);
      } else if user in p.states[k].challenges {
        var i: nat :| Latest(p, i, j, user);
        assert Latest(p, i, k, user);
      }
    }
  }

  lemma LatestStep(p: Path, j: nat, k: nat, user: string)
    requires |p.states| == |p.events| + 1 && j + 1 == k <= |p.events|
    ensures Challenged(p.states[j], p.events[j], user) ==>
              p.events[j].AsksChallenge? && (forall i: nat :: Latest(p, i, k, user) <==> i == j)
    ensures !Challenged(p.states[j], p.events[j], user) ==>
              forall i: nat :: Latest(p, i, k, user)
                               <==> Latest(p, i, j, user) && !Attempted(p.events[j], user) && !p.events[j].Restarts?
  {
    hide Attempted;
    assert Challenged(p.states[j], p.events[j], user) ==> p.events[j].AsksChallenge?;
    hide Challenged;
  }

  /** The signature text is that of the device's key over the nonce issued at step `i`. */
  ghost predicate Proves(p: Path, i: nat, j: nat, d: Device, sig: seq<byte>)
    requires |p.states| == |p.events| + 1 && j < |p.events| && p.events[j].Verifies?
  {
    var s, e := p.states[j], p.events[j];
    && Latest(p, i, j, e.user) && s.now <= p.states[i].now + 60
    && d in s.devices && d.userId == e.user && d.deviceId == e.device
    && SignatureText(e.signature, sig) && p.cfg.crypto.edVerify(d.pubkey, p.events[i].nonce, sig)
  }

  lemma FoundIsUnique(rows: seq<Device>, user: string, d: Device)
    requires d in rows && d.userId == user
    requires forall x, y | x in rows && y in rows && x.deviceId == y.deviceId :: x == y
    ensures FindDevice(DevicesOf(rows, user), d.deviceId) == Some(d)
  {
    var found := FindDevice(DevicesOf(rows, user), d.deviceId);
    assert d in DevicesOf(rows, user);
    assert found.Some? && found.value in rows;
  }

  /** In every run a verification yields a token if and only if the user exists and is not
      suspended, and a device of the user has signed the user's latest challenge, which is at
      most sixty seconds old, has not been attempted and was not lost in a restart. */
  lemma VerifySucceedsIff(p: Path, j: nat)
    requires p.IsRun() && j < |p.events| && p.events[j].Verifies?
    ensures var s, e := p.states[j], p.events[j];
            Issues(p.cfg, s, e)
            <==> e.user in s.users && !s.users[e.user].suspended && exists i: nat, d, sig :: Proves(p, i, j, d, sig)
  {
    hide After, Allowed, Verify, Latest, SignatureText, DevicesOf, FindDevice, Snapshot;
    var s, e := p.states[j], p.events[j];
    RunDistinct(p, j);
    StoredIff(p, j, e.user);
    VerifyReplies(p.cfg, s, e.user, e.device, e.signature);
    if i: nat, d, sig :| Proves(p, i, j, d, sig) {
      FoundIsUnique(s.devices, e.user, d);
    }
    if Issues(p.cfg, s, e) {
      var i: nat :| Latest(p, i, j, e.user);
      var d := FindDevice(DevicesOf(s.devices, e.user), e.device).value;
      assert d in DevicesOf(s.devices, e.user);
      var sig :| SignatureText(e.signature, sig) && p.cfg.crypto.edVerify(d.pubkey, s.challenges[e.user].nonce, sig);
      assert Proves(p, i, j, d, sig);
    }
  }
}
