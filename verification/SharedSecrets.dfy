/** Key material and topic names that the client derives for one relationship. */
module SharedSecrets {
  import opened Types
  import Base64Url

  /** Facts taken from the primitives: X25519 commutes (section 6.1 of RFC 7748), its public
      keys are 32 bytes, and the expansion asked of HKDF is 96 bytes. */
  ghost predicate Lawful(cr: Crypto) {
    && (forall x, y :: cr.x25519(x, cr.x25519Public(y)) == cr.x25519(y, cr.x25519Public(x)))
    && (forall x :: |cr.x25519Public(x)| == 32)
    && Expands(cr)
  }

  ghost predicate Expands(cr: Crypto) {
    forall salt, ikm :: |cr.hkdf(salt, ikm)| == 96
  }

  datatype SharedSecret = SharedSecret(
    peerId: string,
    topicSeed: seq<byte>,
    encKey: seq<byte>,
    authKey: seq<byte>)

  // ── Order on byte strings ───────────────────────────────────────────────

  /** Lexicographic order; a proper prefix comes first. */
  predicate Less(a: seq<byte>, b: seq<byte>) {
    if b == [] then false
    else if a == [] then true
    else a[0] < b[0] || (a[0] == b[0] && Less(a[1..], b[1..]))
  }

  /** Any two byte strings compare in exactly one way. */
  lemma {:induction false} LessIsTotal(a: seq<byte>, b: seq<byte>)
    ensures Less(a, b) || Less(b, a) || a == b
    ensures !(Less(a, b) && Less(b, a))
    ensures Less(a, b) ==> a != b
  {
    if a != [] && b != [] {
      LessIsTotal(a[1..], b[1..]);
      if a[0] == b[0] && a[1..] == b[1..] {
        assert a == [a[0]] + a[1..] == b;
      }
    }
  }

  /** At the first difference the smaller byte, or else the shorter string, comes first. */
  lemma {:induction false} LessIsLexicographic(a: seq<byte>, b: seq<byte>)
    ensures Less(a, b) <==> exists n: nat :: DiffersAt(a, b, n)
  {
    if a != [] && b != [] && a[0] == b[0] {
      LessIsLexicographic(a[1..], b[1..]);
      if n: nat :| DiffersAt(a[1..], b[1..], n) {
        assert a[..n + 1] == [a[0]] + a[1..][..n] && b[..n + 1] == [b[0]] + b[1..][..n];
        assert DiffersAt(a, b, n + 1);
      }
      if n: nat :| DiffersAt(a, b, n) {
        assert n > 0 && a[1..][..n - 1] == a[..n][1..] && b[1..][..n - 1] == b[..n][1..];
        assert DiffersAt(a[1..], b[1..], n - 1);
      }
    } else if a != [] && b != [] {
      assert a[..0] == b[..0];
      assert a[0] < b[0] ==> DiffersAt(a, b, 0);
      if n: nat :| DiffersAt(a, b, n) {
        assert n > 0 ==> a[..n][0] == b[..n][0];
      }
    } else if b != [] {
      assert DiffersAt(a, b, 0);
    }
  }

  /** The strings agree up to `n`, where the first one ends or has the smaller byte. */
  predicate DiffersAt(a: seq<byte>, b: seq<byte>, n: nat) {
    n <= |a| && n < |b| && a[..n] == b[..n] && (n == |a| || a[n] < b[n])
  }

  lemma {:induction false} LessIsTransitive(a: seq<byte>, b: seq<byte>, c: seq<byte>)
    requires Less(a, b) && Less(b, c)
    ensures Less(a, c)
  {
    if a != [] && a[0] == b[0] == c[0] {
      LessIsTransitive(a[1..], b[1..], c[1..]);
    }
  }

  /** The two keys in ascending order, joined. */
  function Salt(mine: seq<byte>, theirs: seq<byte>): (salt: seq<byte>) {
    if Less(theirs, mine) then theirs + mine else mine + theirs
  }

  /** The salt does not depend on whose key comes first. */
  lemma SaltIsSymmetric(a: seq<byte>, b: seq<byte>)
    ensures Salt(a, b) == Salt(b, a)
  {
    LessIsTotal(a, b);
  }

  // ── Derivation ──────────────────────────────────────────────────────────

  function Derive(cr: Crypto, raw: seq<byte>, mine: seq<byte>, theirs: seq<byte>, peerId: string)
      : (secret: SharedSecret)
    requires |cr.hkdf(Salt(mine, theirs), raw)| == 96
    ensures |secret.topicSeed| == |secret.encKey| == |secret.authKey| == 32
  {
    var okm := cr.hkdf(Salt(mine, theirs), raw);
    SharedSecret(peerId, okm[0..32], okm[32..64], okm[64..96])
  }

  /** The three keys, in this order, are the HKDF output under the two public keys in ascending
      order as salt. */
  lemma DeriveIsOutput(cr: Crypto, raw: seq<byte>, mine: seq<byte>, theirs: seq<byte>, peerId: string)
    requires Expands(cr)
    ensures var secret := Derive(cr, raw, mine, theirs, peerId);
            && secret.topicSeed + secret.encKey + secret.authKey == cr.hkdf(Ascending(mine, theirs), raw)
            && secret.peerId == peerId
  {
    LessIsTotal(mine, theirs);
    LessIsLexicographic(mine, theirs);
    var okm := cr.hkdf(Salt(mine, theirs), raw);
    assert okm[0..32] + okm[32..64] + okm[64..96] == okm;
  }

  /** Two keys joined, the one with the smaller byte at the first difference in front. */
  ghost function Ascending(a: seq<byte>, b: seq<byte>): (salt: seq<byte>) {
    if exists n: nat :: DiffersAt(a, b, n) then a + b else b + a
  }

  function Message(from: string, to: string): (m: string) {
    from + ">" + to
  }

  function OutboundTopic(cr: Crypto, secret: SharedSecret, me: string): (topic: string) {
    Base64Url.ClientEncode(cr.hmac(secret.topicSeed, Message(me, secret.peerId)))
  }

  function InboundTopic(cr: Crypto, secret: SharedSecret, me: string): (topic: string) {
    Base64Url.ClientEncode(cr.hmac(secret.topicSeed, Message(secret.peerId, me)))
  }

  /** The same three keys, whatever peer they are filed under. */
  predicate SameMaterial(s: SharedSecret, t: SharedSecret) {
    s.topicSeed == t.topicSeed && s.encKey == t.encKey && s.authKey == t.authKey
  }

  /** Each side derives from its own private key and the other's public key; the results
      carry the same material. */
  lemma DeriveAgrees(cr: Crypto, x: seq<byte>, y: seq<byte>, xOwner: string, yOwner: string)
    requires Lawful(cr)
    ensures var px, py := cr.x25519Public(x), cr.x25519Public(y);
            SameMaterial(Derive(cr, cr.x25519(x, py), px, py, yOwner),
                         Derive(cr, cr.x25519(y, px), py, px, xOwner))
  {
    var px, py := cr.x25519Public(x), cr.x25519Public(y);
    SaltIsSymmetric(px, py);
    assert cr.x25519(x, py) == cr.x25519(y, px);
  }

  /** With the same material filed under each other's id, what one publishes to is what the
      other subscribes to, in both directions. */
  lemma TopicsMirror(cr: Crypto, a: string, b: string, atA: SharedSecret, atB: SharedSecret)
    requires SameMaterial(atA, atB) && atA.peerId == b && atB.peerId == a
    ensures OutboundTopic(cr, atA, a) == InboundTopic(cr, atB, b)
    ensures InboundTopic(cr, atA, a) == OutboundTopic(cr, atB, b)
  {
  }

  /** Where ids contain no '>', a message names its two ends and their order. */
  lemma {:induction false} MessageIsInjective(a: string, b: string, c: string, d: string)
    requires '>' !in a && '>' !in c
    ensures Message(a, b) == Message(c, d) <==> a == c && b == d
  {
    if Message(a, b) == Message(c, d) {
      var m := Message(a, b);
      assert m[..|a|] == a && m[|a|] == '>';
      assert m[..|c|] == c && m[|c|] == '>';
      assert |a| == |c|;
      assert b == m[|a| + 1..] == d;
    }
  }

  /** The two directions between distinct users are authenticated as different messages. */
  lemma DirectionsDiffer(a: string, b: string)
    requires '>' !in a && '>' !in b && a != b
    ensures Message(a, b) != Message(b, a)
  {
    MessageIsInjective(a, b, b, a);
  }
}
