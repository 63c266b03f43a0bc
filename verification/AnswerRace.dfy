/** What overlapping answers do to the clients: the initiator shares its secret with the
    request that wrote last before the collection and, short of an HKDF collision, no other. */
module AnswerRace {
  import opened Types
  import opened Tables
  import opened Spec
  import opened SharedSecrets
  import opened EndToEnd
  import opened ExchangeRace
  import Base64Url

  /** HKDF gives the initiator, who read `stored`, and the responder with private key `y` the
      same output although they salt it differently. */
  ghost predicate Collides(cr: Crypto, x: seq<byte>, y: seq<byte>, stored: seq<byte>) {
    var px, py := cr.x25519Public(x), cr.x25519Public(y);
    && Salt(px, stored) != Salt(py, px)
    && cr.hkdf(Salt(px, stored), cr.x25519(x, stored)) == cr.hkdf(Salt(py, px), cr.x25519(y, px))
  }

  /** One key and the salt determine the other key. */
  lemma SaltDetermines(a: seq<byte>, b: seq<byte>, c: seq<byte>)
    requires |a| == |b| == |c|
    ensures Salt(a, b) == Salt(a, c) <==> b == c
  {
    if Salt(a, b) == Salt(a, c) {
      var s, n := Salt(a, b), |a|;
      assert (s[..n] == a && s[n..] == b) || (s[..n] == b && s[n..] == a);
      assert (s[..n] == a && s[n..] == c) || (s[..n] == c && s[n..] == a);
    }
  }

  /** The three keys make up the whole HKDF output. */
  lemma MaterialIsOutput(cr: Crypto, raw: seq<byte>, mine: seq<byte>, theirs: seq<byte>, peer: string,
                         raw': seq<byte>, mine': seq<byte>, theirs': seq<byte>, peer': string)
    requires Expands(cr)
    ensures SameMaterial(Derive(cr, raw, mine, theirs, peer), Derive(cr, raw', mine', theirs', peer'))
            <==> cr.hkdf(Salt(mine, theirs), raw) == cr.hkdf(Salt(mine', theirs'), raw')
  {
    hide Salt;
    var a, b := cr.hkdf(Salt(mine, theirs), raw), cr.hkdf(Salt(mine', theirs'), raw');
    assert a == a[0..32] + a[32..64] + a[64..96] && b == b[0..32] + b[32..64] + b[64..96];
  }

  /** An initiator who reads `stored` and a responder with private key `y` hold the same keys
      if and only if `stored` is the responder's public key, an HKDF collision aside. */
  lemma AgreesIffStored(cr: Crypto, x: seq<byte>, y: seq<byte>, stored: seq<byte>, alice: string, bob: string)
    requires Lawful(cr) && |stored| == 32
    ensures var px, py := cr.x25519Public(x), cr.x25519Public(y);
            SameMaterial(Derive(cr, cr.x25519(x, stored), px, stored, bob), Derive(cr, cr.x25519(y, px), py, px, alice))
            <==> stored == py || Collides(cr, x, y, stored)
  {
    var px, py := cr.x25519Public(x), cr.x25519Public(y);
    if stored == py {
      DeriveAgrees(cr, x, y, alice, bob);
    }
    MaterialIsOutput(cr, cr.x25519(x, stored), px, stored, bob, cr.x25519(y, px), py, px, alice);
    hide SameMaterial, Derive;
    SaltIsSymmetric(px, py);
    SaltDetermines(px, stored, py);
  }

  /** The record holds what the last write put there. */
  lemma {:induction false} LastWriteWins(p: Interleaving, j: nat, k: nat, id: string)
    requires p.Valid() && j < k < |p.states| && WritesTo(p.states[j], p.moves[j], id) && id in p.states[k].table
    requires forall i :: j < i < k ==> !WritesTo(p.states[i], p.moves[i], id)
    ensures id in p.states[j].table
    ensures p.states[k].table[id].responderKey == Some(p.states[j].writing[p.moves[j].request].key)
  {
    InterleavingKeeps(p, j);
    InterleavingKeeps(p, k - 1);
    assert p.Steps(k - 1);
    assert id in p.states[j].usedIds;
    InterleavingSafety(p, j, k, id);
    if j < k - 1 {
      hide Next, Possible;
      UsedGrow(p, j, k - 1, id);
      InterleavingSafety(p, k - 1, k, id);
      LastWriteWins(p, j, k - 1, id);
      AnswerStep(p.states[k - 1], p.moves[k - 1], id);
    }
  }

  /** What the two clients compute from the record as each of them saw it. */
  lemma SecretsFromRecord(cr: Crypto, x: seq<byte>, y: seq<byte>, id: string, fetched: Exchange, collected: Exchange)
    requires Lawful(cr) && SameOffer(fetched, collected)
    requires fetched.initiatorKey == cr.x25519Public(x)
    requires collected.responderKey.Some? && |collected.responderKey.value| == 32
    ensures var atAlice, atBob := CompleteSecret(cr, x, View(id, collected)), RespondSecret(cr, y, View(id, fetched));
            && atAlice.Some? && atBob.Some?
            && (SameMaterial(atAlice.value, atBob.value)
                <==> var stored := collected.responderKey.value;
                     stored == cr.x25519Public(y) || Collides(cr, x, y, stored))
            && atAlice.value.peerId == collected.responderId && atBob.value.peerId == collected.initiatorId
  {
    var stored := collected.responderKey.value;
    Base64Url.ClientDecodes(stored);
    Base64Url.ClientDecodes(cr.x25519Public(x));
    AgreesIffStored(cr, x, y, stored, fetched.initiatorId, collected.responderId);
    hide SameMaterial, Collides, Base64Url.Encode, Base64Url.ClientDecode;
  }

  /** Under every interleaving, when the initiator collects the record at step `k`: a client of
      the responder that fetched it at step `i` and answered with private key `y` shares its
      secret with the initiator if and only if its public key is the one written last, an HKDF
      collision aside. */
  lemma LastAnswerAgrees(cr: Crypto, p: Interleaving, i: nat, j: nat, k: nat, id: string, x: seq<byte>, y: seq<byte>)
    requires Lawful(cr) && p.Valid()
    requires i <= k < |p.states| && id in p.states[i].table && id in p.states[k].table
    requires p.states[i].table[id].initiatorKey == cr.x25519Public(x)
    requires j < k && WritesTo(p.states[j], p.moves[j], id)
    requires forall h :: j < h < k ==> !WritesTo(p.states[h], p.moves[h], id)
    ensures var atAlice := CompleteSecret(cr, x, View(id, p.states[k].table[id]));
            var atBob := RespondSecret(cr, y, View(id, p.states[i].table[id]));
            && atAlice.Some? && atBob.Some?
            && (SameMaterial(atAlice.value, atBob.value)
                <==> var stored := p.states[j].writing[p.moves[j].request].key;
                     stored == cr.x25519Public(y) || Collides(cr, x, y, stored))
            && atAlice.value.peerId == p.states[j].writing[p.moves[j].request].user
            && atBob.value.peerId == p.states[k].table[id].initiatorId
  {
    hide Next, Possible, SameMaterial, CompleteSecret, RespondSecret, View, Lawful, Collides;
    InterleavingKeeps(p, i);
    InterleavingKeeps(p, j);
    InterleavingSafety(p, i, k, id);
    LastWriteWins(p, j, k, id);
    InterleavingSafety(p, j, k, id);
    SecretsFromRecord(cr, x, y, id, p.states[i].table[id], p.states[k].table[id]);
  }
}
