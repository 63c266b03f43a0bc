/** Users and devices told from the registrations of the run. */
module Accounts {
  import opened Types
  import opened Tables
  import opened Spec
  import opened Machine
  import opened AuthInvariant
  import opened Replies

  /** The step is an allowed registration of a valid key. */
  ghost predicate Registered(cfg: Config, s: State, e: Event)
    ensures Registered(cfg, s, e) ==> e.Registers? && IsKeyText(e.pubkey)
  {
    && e.Registers? && MayRegister(cfg, s, e.regToken, e.hook)
    && IsKeyText(e.pubkey) && cfg.crypto.edKeyValid(KeyOf(e.pubkey))
  }

  /** The device that the registration files. */
  ghost function NewDevice(s: State, e: Event): (d: Device)
    requires e.Registers? && IsKeyText(e.pubkey)
  {
    Device(e.deviceId, e.userId, KeyOf(e.pubkey), s.now)
  }

  lemma AccountFiles(cfg: Config, s: State, e: Event)
    requires IsAccount(e)
    ensures var r := AfterAccount(cfg, s, e);
            if Registered(cfg, s, e)
            then r.users.Keys == s.users.Keys + {e.userId} && r.devices == s.devices + [NewDevice(s, e)]
            else r.users.Keys == s.users.Keys && r.devices == s.devices
  {
    hide Register, Suspend, Unsuspend, MayRegister, IsKeyText, KeyOf;
    match e
    case Registers(pubkey, regToken, hook, u, d) => RegisterReplies(cfg, s, pubkey, regToken, hook, u, d);
    case Suspends(adminKey, u, reason) => SuspendReplies(cfg, s, adminKey, u, reason);
    case Unsuspends(adminKey, u) => UnsuspendReplies(cfg, s, adminKey, u);
    case CreatesRegToken(_, _, _, _, _) =>
  }

  lemma RelationshipFiles(cfg: Config, s: State, e: Event)
    requires IsRelationship(e)
    ensures AfterRelationship(cfg, s, e).users.Keys == s.users.Keys
  {
    hide Kick, FindRelationship, DeleteRelationship;
  }

  /** Exactly which users and devices a step adds; none is ever removed. */
  lemma FilesStep(cfg: Config, s: State, e: Event)
    ensures var r := After(cfg, s, e);
            if Registered(cfg, s, e)
            then r.users.Keys == s.users.Keys + {e.userId} && r.devices == s.devices + [NewDevice(s, e)]
            else r.users.Keys == s.users.Keys && r.devices == s.devices
  {
    hide AfterAccount, AfterAuth, AfterExchange, AfterRelationship, AfterBroker, MayRegister, IsKeyText, KeyOf;
    if IsAccount(e) {
      AccountFiles(cfg, s, e);
    } else if IsRelationship(e) {
      RelationshipFiles(cfg, s, e);
    }
  }

  /** Step `i` registered the user. */
  ghost predicate UserAt(p: Path, i: nat, k: nat, user: string)
    requires |p.states| == |p.events| + 1 && k <= |p.events|
  {
    i < k && Registered(p.cfg, p.states[i], p.events[i]) && p.events[i].userId == user
  }

  ghost predicate DeviceAt(p: Path, i: nat, k: nat, d: Device)
    requires |p.states| == |p.events| + 1 && k <= |p.events|
  {
    i < k && Registered(p.cfg, p.states[i], p.events[i]) && d == NewDevice(p.states[i], p.events[i])
  }

  /** In every reachable state users and devices are exactly those that allowed registrations
      of valid keys have filed. */
  lemma {:induction false} FilesFromHistory(p: Path, k: nat, user: string, d: Device)
    requires p.IsRun() && k < |p.states|
    ensures user in p.states[k].users <==> exists i: nat :: UserAt(p, i, k, user)
    ensures d in p.states[k].devices <==> exists i: nat :: DeviceAt(p, i, k, d)
  {
    hide After, Allowed, Registered, NewDevice;
    if k > 0 {
      FilesFromHistory(p, k - 1, user, d);
      assert p.Steps(k - 1);
      FilesStep(p.cfg, p.states[k - 1], p.events[k - 1]);
      forall i: nat | i < k - 1
        ensures UserAt(p, i, k, user) <==> UserAt(p, i, k - 1, user)
        ensures DeviceAt(p, i, k, d) <==> DeviceAt(p, i, k - 1, d)
      {
      }
      var j := k - 1;
      if user in p.states[j].users {
        var i: nat :| UserAt(p, i, j, user);
        assert UserAt(p, i, k, user);
      }
      if d in p.states[j].devices {
        var i: nat :| DeviceAt(p, i, j, d);
        assert DeviceAt(p, i, k, d);
      }
      if Registered(p.cfg, p.states[k - 1], p.events[k - 1]) {
        assert p.events[k - 1].userId == user ==> UserAt(p, k - 1, k, user);
        assert d == NewDevice(p.states[k - 1], p.events[k - 1]) ==> DeviceAt(p, k - 1, k, d);
      }
    }
  }

  /** No two devices share an id, and every key on file is a valid 32-byte key. */
  ghost predicate DevicesDistinct(cfg: Config, s: State) {
    && (forall d, d' | d in s.devices && d' in s.devices && d.deviceId == d'.deviceId :: d == d')
    && (forall d | d in s.devices :: |d.pubkey| == 32 && cfg.crypto.edKeyValid(d.pubkey))
  }

  lemma DistinctStep(cfg: Config, s: State, e: Event)
    requires Allowed(s, e) && DevicesSound(s) && DevicesDistinct(cfg, s)
    ensures DevicesDistinct(cfg, After(cfg, s, e))
  {
    hide After, MayRegister, IsKeyText;
    FilesStep(cfg, s, e);
    if Registered(cfg, s, e) {
      assert NewDevice(s, e).deviceId !in s.usedIds;
    }
  }

  lemma {:induction false} RunDistinct(p: Path, k: nat)
    requires p.IsRun() && k < |p.states|
    ensures DevicesDistinct(p.cfg, p.states[k])
  {
    hide After, Allowed, TokensSound, SessionsSound, LiveSound, UsersSound;
    if k > 0 {
      RunDistinct(p, k - 1);
      RunKeeps(p, k - 1);
      assert p.Steps(k - 1);
      DistinctStep(p.cfg, p.states[k - 1], p.events[k - 1]);
    }
  }
}
