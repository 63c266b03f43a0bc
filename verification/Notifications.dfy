/** Personal notification topics: one per user, told apart by the keyed hash of the user id. */
module Notifications {
  import opened Types
  import opened Tables
  import opened Spec
  import opened Machine
  import opened Revocation
  import opened Provenance
  import Base64Url

  /** What the server hashes for a user. */
  function Greeting(user: string): (message: string) {
    "notify:" + user
  }

  /** The keyed hash does not tell two users apart. */
  predicate Collide(cfg: Config, u: string, v: string) {
    u != v && cfg.crypto.hmac(cfg.notifySecret, Greeting(u)) == cfg.crypto.hmac(cfg.notifySecret, Greeting(v))
  }

  lemma EncodeIsInjective(a: seq<byte>, b: seq<byte>)
    ensures Base64Url.Encode(a) == Base64Url.Encode(b) <==> a == b
  {
    Base64Url.DecodeIffEncode(Base64Url.Encode(a), a);
    Base64Url.DecodeIffEncode(Base64Url.Encode(a), b);
  }

  /** Every token carries, as its last subscription, the base64url of the keyed hash of
      "notify:" followed by its own user id. */
  lemma TokenCarriesTopic(p: Path, k: nat, c: Claims)
    requires p.IsRun() && k < |p.states| && c in p.states[k].issued
    ensures var topic := Base64Url.Encode(p.cfg.crypto.hmac(p.cfg.notifySecret, Greeting(c.sub)));
            c.notifyTopic == topic && |c.subTopics| > 0 && c.subTopics[|c.subTopics| - 1] == topic
  {
    hide After, Issues;
    var i := TokenOrigin(p, k, c);
  }

  /** The tokens of two users name the same notification topic if and only if it is one user,
      or the hash collides. */
  lemma TopicsDiffer(p: Path, k: nat, c: Claims, d: Claims)
    requires p.IsRun() && k < |p.states| && c in p.states[k].issued && d in p.states[k].issued
    ensures c.notifyTopic == d.notifyTopic <==> c.sub == d.sub || Collide(p.cfg, c.sub, d.sub)
  {
    hide Base64Url.Encode;
    TokenCarriesTopic(p, k, c);
    TokenCarriesTopic(p, k, d);
    EncodeIsInjective(p.cfg.crypto.hmac(p.cfg.notifySecret, Greeting(c.sub)),
                      p.cfg.crypto.hmac(p.cfg.notifySecret, Greeting(d.sub)));
  }

  /** In every run another user's notification topic is granted to a user only on a token for
      which a row of that user's own listed it at issue, unless the hash collides. */
  lemma TopicIsPersonal(p: Path, k: nat, user: string, d: Claims) returns (i: nat)
    requires p.IsRun() && k < |p.events| && d in p.states[k].issued && d.sub != user
    requires GrantedTo(p.states[k], p.events[k], user, d.notifyTopic)
    ensures i < k && Issues(p.cfg, p.states[i], p.events[i]) && p.events[i].user == user
    ensures p.events[i].device == p.events[k].clientId
    ensures Lists(p.states[i].relationships, user, d.notifyTopic) || Collide(p.cfg, user, d.sub)
  {
    hide After, Issues, Lists, Snapshot, Base64Url.Encode;
    i := GrantProvenance(p, k, user, d.notifyTopic);
    TokenCarriesTopic(p, k, d);
    EncodeIsInjective(p.cfg.crypto.hmac(p.cfg.notifySecret, Greeting(user)),
                      p.cfg.crypto.hmac(p.cfg.notifySecret, Greeting(d.sub)));
  }
}
