/**
 * The signing and hashing libraries, kept abstract: each is a pair of functions passed in
 * as a value, and what the model relies on about them is stated as a predicate that the
 * lemmas assume and no operation does.
 */
module Crypto {
  import opened Wrappers

  /** The claim set of a token: `sub` and `exp` (RFC 7519, sections 4.1.2 and 4.1.4). */
  datatype Claims = Claims(sub: Option<string>, exp: Option<int>)

  /** A claim set is expired at `now` when its `exp` lies strictly before `now`. */
  predicate Expired(c: Claims, now: int) {
    c.exp.Some? && c.exp.value < now
  }

  /**
   * `jwt.encode` with the server's key and algorithm, and `jwt.decode` at clock `now`;
   * `decode` gives None where the library raises JWTError (bad signature, malformed
   * token, expired claim set).
   */
  datatype Signer = Signer(encode: Claims -> string, decode: (string, int) -> Option<Claims>)

  /**
   * What the model assumes of the signer: a token it issued decodes to its own claims
   * until they expire and is refused afterwards, and no token decodes to an expired claim set.
   */
  ghost predicate SignerLaws(s: Signer) {
    && (forall c: Claims, now: int :: s.decode(s.encode(c), now) == if Expired(c, now) then None else Some(c))
    && (forall t: string, now: int :: s.decode(t, now).Some? ==> !Expired(s.decode(t, now).value, now))
  }

  /** `bcrypt_context.hash` and `bcrypt_context.verify`. */
  datatype Hasher = Hasher(hash: string -> string, verify: (string, string) -> bool)

  /** What the model assumes of the hasher: a password verifies against its own hash. */
  ghost predicate HasherSound(h: Hasher) {
    forall p: string :: h.verify(p, h.hash(p))
  }
}
