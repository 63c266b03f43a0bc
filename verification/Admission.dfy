/** Exactly when a token is admitted at CONNECT, in terms of the run so far. */
module Admission {
  import opened Types
  import opened Tables
  import opened Spec
  import opened Machine
  import opened AuthInvariant
  import opened Kicking
  import opened Revocation

  /** A token's age passes the limit at step `k` if and only if it did at step `j` and no kick
      in between came in a later second. */
  lemma {:induction false} StaleIffKicked(p: Path, j: nat, k: nat, user: string, iat: nat)
    requires p.IsRun() && j <= k < |p.states| && user in p.states[j].users
    ensures user in p.states[k].users
    ensures p.states[k].users[user].tokensValidFrom <= iat
            <==> p.states[j].users[user].tokensValidFrom <= iat
                 && forall i :: j <= i < k && Kicks(p.cfg, p.states[i], p.events[i], user) ==> p.states[i].now <= iat
  {
    hide After, Allowed, Kicks, TokensSound, SessionsSound, LiveSound, DevicesSound;
    if j < k {
      StaleIffKicked(p, j, k - 1, user, iat);
      RunKeeps(p, k - 1);
      assert p.Steps(k - 1);
      ValidFromExact(p.cfg, p.states[k - 1], p.events[k - 1], user);
    }
  }

  lemma IssueStands(cfg: Config, s: State, e: Event)
    requires Issues(cfg, s, e) && UsersSound(s)
    ensures e.user in s.users && s.users[e.user].tokensValidFrom <= s.now
    ensures forall user :: !Kicks(cfg, s, e, user)
  {
    hide Snapshot, FindDevice, DevicesOf;
  }

  /** In every run, the token issued at step `j` is admitted at step `k` if and only if the
      client id is the device it was issued for, its lifetime and the leeway have not run out,
      the user is not suspended, and every kick of the user since fell in the second of issue. */
  lemma AdmittedIff(p: Path, j: nat, k: nat, clientId: string)
    requires p.IsRun() && j < k < |p.states| && Issues(p.cfg, p.states[j], p.events[j])
    ensures var user, issue, s := p.events[j].user, p.states[j].now, p.states[k];
            var c := Snapshot(p.cfg, p.states[j], user, p.events[j].device);
            && user in s.users
            && (Authenticate(p.cfg, s, clientId, Some(Signed(c))) == Some(c)
                <==> && clientId == p.events[j].device
                     && s.now - issue <= p.cfg.jwtTtl + p.cfg.jwtLeeway
                     && !s.users[user].suspended
                     && forall i :: j < i < k && Kicks(p.cfg, p.states[i], p.events[i], user) ==> p.states[i].now == issue)
  {
    hide After, Allowed, Kicks, Issues, RelationshipsOf, Topics, NotifyTopic, TokensSound, SessionsSound, LiveSound,
      DevicesSound;
    var user, issue := p.events[j].user, p.states[j].now;
    RunKeeps(p, j);
    IssueStands(p.cfg, p.states[j], p.events[j]);
    StaleIffKicked(p, j, k, user, issue);
    forall i | j < i < k ensures issue <= p.states[i].now {
      ClockNeverGoesBack(p, j, i);
    }
  }

  /** In every run, a REST request that carries the token issued at step `j` is accepted as the
      user's if and only if the token's lifetime and the leeway have not run out; suspension and
      kicks do not matter there. */
  lemma AcceptedIff(p: Path, j: nat, k: nat)
    requires p.IsRun() && j < k < |p.states| && Issues(p.cfg, p.states[j], p.events[j])
    ensures var user := p.events[j].user;
            var c := Snapshot(p.cfg, p.states[j], user, p.events[j].device);
            AuthUser(p.cfg, p.states[k].now, Signed(c))
            == if p.states[k].now - p.states[j].now <= p.cfg.jwtTtl + p.cfg.jwtLeeway then Ok(user) else Err(Unauthorized)
  {
  }
}
