/** Values shared by every component: results and errors, table rows, JWT claims,
    configuration, and the cryptographic operations taken as given. */
module Types {

  type byte = b: int | 0 <= b < 256

  datatype Option<+T> = None | Some(value: T)

  datatype Error = NotFound | Unauthorized | Forbidden | BadRequest | Conflict | Internal

  datatype Result<+T> = Ok(value: T) | Err(error: Error)

  // ── Table rows ──────────────────────────────────────────────────────────

  datatype User = User(
    createdAt: nat,
    suspended: bool,
    suspendReason: Option<string>,
    tokensValidFrom: nat)

  datatype Device = Device(
    deviceId: string,
    userId: string,
    pubkey: seq<byte>,
    registeredAt: nat)

  datatype Relationship = Relationship(
    relationshipId: string,
    userId: string,
    peerId: string,
    publishTopics: seq<string>,
    subscribeTopics: seq<string>,
    createdAt: nat)

  datatype Exchange = Exchange(
    initiatorId: string,
    responderId: string,
    initiatorKey: seq<byte>,
    responderKey: Option<seq<byte>>,
    createdAt: nat,
    expiresAt: nat)

  datatype RegToken = RegToken(
    tokenId: string,
    tokenHash: seq<byte>,
    createdAt: nat,
    expiresAt: nat,
    maxUses: int,
    uses: int)

  /** An outstanding authentication challenge. */
  datatype Challenge = Challenge(nonce: seq<byte>, expiresAt: nat)

  const EXCHANGE_TTL_SECS: nat := 7 * 24 * 3600
  const CHALLENGE_TTL_SECS: nat := 60

  // ── JWTs ────────────────────────────────────────────────────────────────

  datatype Claims = Claims(
    sub: string,
    dev: string,
    exp: nat,
    iat: nat,
    pubTopics: seq<string>,
    subTopics: seq<string>,
    notifyTopic: string)

  /** A bearer string: either claims under the server's own signature, or anything else. */
  datatype Token = Signed(claims: Claims) | Malformed

  // ── Configuration ───────────────────────────────────────────────────────

  datatype RegistrationMode =
    | Open
    | Closed
    | PolicyMissing  // policy mode with no policy section
    | Push
    | HookUrlMissing // hook policy without a URL
    | Hook

  /** The cryptographic operations, taken as given. Messages that the programs build as
      text are kept as text. */
  datatype Crypto = Crypto(
    hmac: (seq<byte>, string) -> seq<byte>,
    hkdf: (seq<byte>, seq<byte>) -> seq<byte>,   // salt, input keying material; 96 bytes
    x25519Public: seq<byte> -> seq<byte>,        // private key
    x25519: (seq<byte>, seq<byte>) -> seq<byte>, // private key, public key
    edPublic: seq<byte> -> seq<byte>,            // private key
    edSign: (seq<byte>, seq<byte>) -> seq<byte>, // private key, message
    edKeyValid: seq<byte> -> bool,
    edVerify: (seq<byte>, seq<byte>, seq<byte>) -> bool) // key, message, signature

  datatype Config = Config(
    mode: RegistrationMode,
    adminKey: string,
    jwtTtl: nat,
    jwtLeeway: nat,
    notifySecret: seq<byte>,
    tokenHashKey: seq<byte>, // the fixed key "smqtt-token-hash"
    crypto: Crypto)
}
