/** Where every granted subscription comes from. */
module Provenance {
  import opened Types
  import opened Tables
  import opened Spec
  import opened Machine
  import opened AuthInvariant
  import opened Revocation

  /** Every signed token goes back to a verification earlier in the run, and is the snapshot
      taken there. */
  lemma {:induction false} TokenOrigin(p: Path, k: nat, c: Claims) returns (i: nat)
    requires p.IsRun() && k < |p.states| && c in p.states[k].issued
    ensures i < k && Issues(p.cfg, p.states[i], p.events[i])
    ensures c == Snapshot(p.cfg, p.states[i], p.events[i].user, p.events[i].device)
  {
    hide After, Issues, Snapshot;
    assert k > 0;
    assert p.Steps(k - 1);
    IssuedStep(p.cfg, p.states[k - 1], p.events[k - 1]);
    if c in p.states[k - 1].issued {
      i := TokenOrigin(p, k - 1, c);
    } else {
      i := k - 1;
    }
  }

  /** A granted subscription is literally listed in a token that was signed, earlier in the
      run, for the device on whose connection it arrives; at that token's time of issue the
      user's own rows listed the topic, or it is the user's notification topic. */
  lemma GrantProvenance(p: Path, k: nat, user: string, topic: string) returns (i: nat)
    requires p.IsRun() && k < |p.events|
    requires GrantedTo(p.states[k], p.events[k], user, topic)
    ensures i < k && Issues(p.cfg, p.states[i], p.events[i])
    ensures p.events[i].user == user && p.events[i].device == p.events[k].clientId
    ensures var c := p.states[k].sessions[p.events[k].clientId];
            && c == Snapshot(p.cfg, p.states[i], user, p.events[i].device)
            && c.iat == p.states[i].now
            && topic in c.subTopics
    ensures Lists(p.states[i].relationships, user, topic) || topic == NotifyTopic(p.cfg, user)
  {
    hide After, Issues, Lists, NotifyTopic;
    var s, e := p.states[k], p.events[k];
    RunKeeps(p, k);
    GrantRestsOnToken(p.cfg, s, e, user, topic);
    var c := s.sessions[e.clientId];
    i := TokenOrigin(p, k, c);
    SnapshotIsTable(p.cfg, p.states[i], p.events[i].user, p.events[i].device, topic);
  }

  /** What one step makes of a permission: an admitted connect of that client id replaces it
      by what the new token lists, a disconnect hook of that client id or a restart ends it,
      and nothing else changes it. */
  lemma GrantStep(cfg: Config, s: State, e: Event, clientId: string, topic: string)
    ensures Granted(After(cfg, s, e), clientId, topic) <==>
            if e.Restarts? || e == Disconnected(clientId) then false
            else if e.Connects? && e.clientId == clientId && Authenticate(cfg, s, clientId, e.password).Some?
            then topic in Authenticate(cfg, s, clientId, e.password).value.subTopics
            else Granted(s, clientId, topic)
  {
    hide AfterAccount, AfterAuth, AfterExchange, AfterRelationship, AfterBroker;
    if IsBroker(e) {
      BrokerGrantStep(cfg, s, e, clientId, topic);
    }
  }

  lemma BrokerGrantStep(cfg: Config, s: State, e: Event, clientId: string, topic: string)
    requires IsBroker(e)
    ensures Granted(AfterBroker(cfg, s, e), clientId, topic) <==>
            if e == Disconnected(clientId) then false
            else if e.Connects? && e.clientId == clientId && Authenticate(cfg, s, clientId, e.password).Some?
            then topic in Authenticate(cfg, s, clientId, e.password).value.subTopics
            else Granted(s, clientId, topic)
  {
    hide Authenticate;
  }

  /** Only an admitted connect of that client id can turn a refusal into a grant; in
      particular hang-ups and late disconnect hooks only ever take permission away. */
  lemma OnlyConnectGrants(cfg: Config, s: State, e: Event, clientId: string, topic: string)
    requires !Granted(s, clientId, topic) && Granted(After(cfg, s, e), clientId, topic)
    ensures e.Connects? && e.clientId == clientId
    ensures var a := Authenticate(cfg, s, clientId, e.password);
            a.Some? && topic in a.value.subTopics
  {
    hide After, Authenticate;
    GrantStep(cfg, s, e, clientId, topic);
  }
}
