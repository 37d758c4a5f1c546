/**
 * JSON Web Tokens (RFC 7519) signed with HMAC-SHA256, "HS256" in section
 * 3.2 of RFC 7518, as the PyJWT library issues and checks them.  The MAC is
 * symbolic: `Sign(key, alg, claims)` is a term that only the holder of `key`
 * can build, and a signature is valid exactly when it equals that term.
 */
module Jwt {
  import opened Wrappers

  /** The process-wide secret, or any other key material a forger may hold. */
  datatype SigningKey = ServerKey | OtherKey(material: string)

  /** The registered claims the tracker puts in a token (RFC 7519, section 4.1). */
  datatype Claims = Claims(sub: string, role: string, exp: int, iat: int)

  datatype Signature = Mac(key: SigningKey, alg: string, signed: Claims)

  /** A cookie value: a compact JWS, or a string that does not parse as one. */
  datatype Jws = Compact(alg: string, claims: Claims, signature: Signature) | Garbled(text: string)

  /** The `PyJWTError` subclasses `jwt.decode` raises. */
  datatype JwtError = DecodeError | InvalidAlgorithmError | InvalidSignatureError | ExpiredSignatureError

  function Sign(key: SigningKey, alg: string, claims: Claims): Signature
  {
    Mac(key, alg, claims)
  }

  /** `jwt.encode(claims, key, algorithm=alg)`. */
  function Encode(claims: Claims, key: SigningKey, alg: string): (t: Jws)
    ensures t.Compact? && t.claims == claims && t.alg == alg
  {
    Compact(alg, claims, Sign(key, alg, claims))
  }

  /** Whether `t` carries a valid `alg` MAC under `key`. */
  predicate SignedBy(t: Jws, key: SigningKey, alg: string)
  {
    t.Compact? && t.alg == alg && t.signature == Sign(key, alg, t.claims)
  }

  /**
   * `jwt.decode(t, key, algorithms=alg, options={"verify_exp": verifyExp})`
   * at time `now` (seconds): the header's algorithm must be the allowed one,
   * then the signature must verify, then (unless switched off) the token
   * must not have expired; PyJWT treats `exp <= now` as expired.
   */
  function Decode(t: Jws, key: SigningKey, alg: string, now: int, verifyExp: bool): (r: Result<Claims, JwtError>)
    ensures r.Ok? <==> SignedBy(t, key, alg) && (verifyExp ==> now < t.claims.exp)
    ensures r.Ok? ==> r.value == t.claims
    ensures r == Err(ExpiredSignatureError) <==> SignedBy(t, key, alg) && verifyExp && t.claims.exp <= now
  {
    match t
    case Garbled(_) => Err(DecodeError)
    case Compact(a, claims, signature) =>
      if a != alg then Err(InvalidAlgorithmError)
      else if signature != Sign(key, a, claims) then Err(InvalidSignatureError)
      else if verifyExp && claims.exp <= now then Err(ExpiredSignatureError)
      else Ok(claims)
  }

  /** Encoding and then decoding under the same key returns the claims until they expire. */
  lemma DecodeEncode(claims: Claims, key: SigningKey, alg: string, now: int, verifyExp: bool)
    ensures Decode(Encode(claims, key, alg), key, alg, now, verifyExp) ==
      if verifyExp && claims.exp <= now then Err(ExpiredSignatureError) else Ok(claims)
  {
  }

  /** A token signed under one key never verifies under another. */
  lemma WrongKeyRejected(claims: Claims, signer: SigningKey, verifier: SigningKey, alg: string, now: int, verifyExp: bool)
    requires signer != verifier
    ensures Decode(Encode(claims, signer, alg), verifier, alg, now, verifyExp) == Err(InvalidSignatureError)
  {
  }
}
