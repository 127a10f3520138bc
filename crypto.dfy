/**
  Stand-ins for the two foreign libraries the service relies on: Werkzeug's
  salted password hashing and PyJWT's HS256 tokens (RFC 7519, with the `exp`
  claim of section 4.1.4).

  Both are passed to the model as values holding functions, so nothing about
  them is fixed beyond what a lemma names as a hypothesis: the `ghost
  predicate`s below state the properties that the real libraries are relied on
  to have, and each lemma that needs one lists it in its `requires`.
*/
module Crypto {
  import opened Wrappers

  /**
    `generate_password_hash(password)` draws a fresh salt and returns a string
    that embeds it; the salt is an explicit argument here. `check` is
    `check_password_hash(stored_hash, password)`.
  */
  datatype Hasher = Hasher(hash: (string, string) -> string, check: (string, string) -> bool)

  /** The hash of a password always checks against that password, whatever the salt. */
  ghost predicate Sound(h: Hasher)
  {
    forall salt, password :: h.check(h.hash(salt, password), password)
  }

  /** A hash checks against no password other than the one it was made from. */
  ghost predicate Discriminating(h: Hasher)
  {
    forall salt, password, guess :: h.check(h.hash(salt, password), guess) ==> guess == password
  }

  /** The claims the service puts into a token (times are whole seconds since the epoch). */
  datatype Payload = Payload(sub: string, roles: seq<string>, iat: int, exp: int)

  /**
    The two claims the guard reads back from a decoded token. A token signed with
    the secret need not carry them, so each may be absent.
  */
  datatype Claims = Claims(sub: Option<string>, roles: Option<seq<string>>)

  /**
    What `jwt.decode(token, key, algorithms=["HS256"])` does at a given clock:
    return the claims, raise `ExpiredSignatureError`, or raise another
    `InvalidTokenError` (bad structure, bad signature, bad claim).
  */
  datatype Decoded = Valid(claims: Claims) | ExpiredSignature | InvalidToken

  /** `jwt.encode(payload, key, algorithm="HS256")` and `jwt.decode` at clock `now`. */
  datatype JwtCodec = JwtCodec(encode: (Payload, string) -> string, decode: (string, string, int) -> Decoded)

  /** The claims a decoder reports for a payload it signed. */
  function ClaimsOf(p: Payload): (c: Claims)
  {
    Claims(Some(p.sub), Some(p.roles))
  }

  /** Encoded tokens are compact: non-empty and free of spaces (base64url parts joined by dots). */
  ghost predicate Compact(c: JwtCodec)
  {
    forall p, key :: c.encode(p, key) != [] && ' ' !in c.encode(p, key)
  }

  /** A token decodes, under the key that signed it, to its claims from `iat` until before `exp`. */
  ghost predicate AcceptsUntilExpiry(c: JwtCodec)
  {
    forall p: Payload, key, now :: p.iat <= now < p.exp ==> c.decode(c.encode(p, key), key, now) == Valid(ClaimsOf(p))
  }

  /**
    After `exp` has passed, a token signed with the key and already issued is
    reported expired. PyJWT checks `iat` before `exp`, so a token whose `iat`
    is still ahead is refused by the check below instead.
  */
  ghost predicate ExpiresAfter(c: JwtCodec)
  {
    forall p: Payload, key, now :: p.iat <= now && p.exp < now ==> c.decode(c.encode(p, key), key, now) == ExpiredSignature
  }

  /**
    Before its `iat`, a token signed with the key is refused as immature;
    `ImmatureSignatureError` is an `InvalidTokenError` but not an expiry.
  */
  ghost predicate RejectsBeforeIssue(c: JwtCodec)
  {
    forall p: Payload, key, now :: now < p.iat ==> c.decode(c.encode(p, key), key, now) == InvalidToken
  }

  /** The behaviour of PyJWT that the service relies on. The boundary `now == exp` is left open. */
  ghost predicate Faithful(c: JwtCodec)
  {
    Compact(c) && AcceptsUntilExpiry(c) && ExpiresAfter(c) && RejectsBeforeIssue(c)
  }
}
