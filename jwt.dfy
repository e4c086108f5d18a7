/**
 * JSON Web Tokens as python-jose encodes and decodes them, kept symbolic.
 *
 * A signed token records its claims set, the key it was signed with and the
 * algorithm named in its header; a string that does not parse as a JWT is
 * `Garbled`. Decoding succeeds only for a token signed with the expected key
 * under the expected algorithm, whose claims pass the registered-claim checks
 * python-jose applies by default to the two claims this service uses: "exp"
 * (section 4.1.4 of RFC 7519) and "sub" (section 4.1.2 of RFC 7519).
 */
module Jwt {
  import opened Wrappers

  /** A claim value: a JSON string, or a JSON number (NumericDate: seconds since the epoch). */
  datatype Claim = Str(s: string) | Num(n: int)

  type Claims = map<string, Claim>

  /** The subject claim, section 4.1.2 of RFC 7519. */
  const Sub: string := "sub"
  /** The expiration time claim, section 4.1.4 of RFC 7519. */
  const Exp: string := "exp"

  datatype Token = Signed(claims: Claims, key: string, alg: string) | Garbled(text: string)

  /**
   * `jwt.encode(claims, key, algorithm=alg)`: a token that no other key or
   * algorithm opens, and that yields exactly `claims` whenever it decodes.
   */
  function Encode(claims: Claims, key: string, alg: string): (token: Token)
    ensures forall otherKey, otherAlg, now :: otherKey != key || otherAlg != alg ==> Decode(token, otherKey, otherAlg, now).None?
    ensures forall now :: Decode(token, key, alg, now).Some? ==> Decode(token, key, alg, now).value == claims
  {
    Signed(claims, key, alg)
  }

  /** The token must not be accepted after its "exp" instant; an "exp" that is not a number is rejected. */
  predicate Unexpired(claims: Claims, now: int)
  {
    Exp in claims ==> claims[Exp].Num? && now <= claims[Exp].n
  }

  /** A "sub" claim, when present, must be a string. */
  predicate SubjectIsString(claims: Claims)
  {
    Sub in claims ==> claims[Sub].Str?
  }

  /**
   * `jwt.decode(token, key, algorithms=[alg])` at time `now`: the claims set,
   * or `None` where python-jose raises a `JWTError`.
   */
  function Decode(token: Token, key: string, alg: string, now: int): (r: Option<Claims>)
    ensures r.Some? <==>
      token.Signed? && token.key == key && token.alg == alg
      && Unexpired(token.claims, now) && SubjectIsString(token.claims)
    ensures r.Some? ==> r.value == token.claims
  {
    match token
    case Garbled(_) => None
    case Signed(claims, k, a) =>
      if k == key && a == alg && Unexpired(claims, now) && SubjectIsString(claims)
      then Some(claims)
      else None
  }

  /** Decoding what was encoded under the same key and algorithm gives back the claims, until they expire. */
  lemma DecodeEncode(claims: Claims, key: string, alg: string, now: int)
    requires SubjectIsString(claims)
    ensures Decode(Encode(claims, key, alg), key, alg, now)
      == if Unexpired(claims, now) then Some(claims) else None
  {
  }

  /** A token signed with any other key, or under any other algorithm, never decodes. */
  lemma ForgedTokenRejected(claims: Claims, key: string, alg: string, forgedKey: string, forgedAlg: string, now: int)
    requires forgedKey != key || forgedAlg != alg
    ensures Decode(Encode(claims, forgedKey, forgedAlg), key, alg, now) == None
  {
  }
}
