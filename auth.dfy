/**
  The token side of the service (utils/auth.py): building the payload of a
  session token, the `token_required` guard and the `roles_required` gate.

  The guard is a decision procedure over the `Authorization` header, the
  settings and the clock. Its outcome says whether the wrapped handler runs
  (and with which current user and roles), or which rejection is returned, or
  which Python exception escapes the guard (Flask then answers 500).
*/
module Auth {
  import opened Wrappers
  import opened PyStr
  import opened Crypto
  import opened Config

  /** What a successful check stores on the request: `current_user` and `user_roles`. */
  datatype AuthContext = AuthContext(currentUser: string, userRoles: seq<string>)

  /** The rejections a guard returns, with their HTTP status and message. */
  datatype Denial = TokenMissing | TokenExpired | TokenInvalid | InsufficientPermissions
  {
    /** 403 for a missing role, 401 for every authentication failure. */
    function Status(): (code: int)
    {
      if this == InsufficientPermissions then 403 else 401
    }

    function Message(): (text: string)
    {
      match this
      case TokenMissing => "Token is missing!"
      case TokenExpired => "Token has expired!"
      case TokenInvalid => "Invalid token!"
      case InsufficientPermissions => "Access denied: Insufficient permissions."
    }
  }

  /** Python exceptions that can escape a guard. */
  datatype PyException = IndexError | KeyError

  /** The wrapped handler runs with `ctx`, or the guard answers with a rejection, or it raises. */
  datatype Outcome = Admit(ctx: AuthContext) | Deny(denial: Denial) | Raise(exception: PyException)

  /**
    The payload `generate_jwt` signs. The clock is read twice, once for `iat`
    and once more for `exp`, so the two readings are separate arguments.
  */
  function IssuePayload(settings: Settings, username: string, roles: seq<string>, iatClock: int, expClock: int): (p: Payload)
    ensures p.sub == username && p.roles == roles
    ensures p.iat == iatClock && p.exp - expClock == TtlSeconds(settings)
    ensures settings.jwtExpirationHours > 0 && iatClock <= expClock ==> p.iat < p.exp
  {
    Payload(username, roles, iatClock, expClock + settings.jwtExpirationHours * SecondsPerHour)
  }

  /** `generate_jwt(user)`: the signed, compact token for a user's name and current roles. */
  function GenerateJwt(settings: Settings, codec: JwtCodec, username: string, roles: seq<string>, iatClock: int, expClock: int): (token: string)
    ensures Compact(codec) ==> token != [] && ' ' !in token
  {
    codec.encode(IssuePayload(settings, username, roles, iatClock, expClock), settings.secretKey)
  }

  /**
    The token as the guard reads it: nothing without an `Authorization` header,
    otherwise the second field of `header.split(" ")`, which raises `IndexError`
    when the header holds no space. The first field is never looked at.
  */
  function ExtractToken(authorization: Option<string>): (r: Result<Option<string>, PyException>)
    ensures authorization.None? ==> r == Ok(None)
    ensures authorization.Some? ==> (r.Err? <==> ' ' !in authorization.value)
    ensures r.Err? ==> r.error == IndexError
    ensures r.Ok? && r.value.Some? ==> ' ' !in r.value.value
  {
    match authorization
    case None => Ok(None)
    case Some(header) =>
      var fields := Split(header);
      if |fields| < 2 then Err(IndexError) else Ok(Some(fields[1]))
  }

  /**
    The guard's answer to what `jwt.decode` did: an expired signature is told
    apart from every other invalid token, and a valid token lacking `sub` or
    `roles` makes the claim lookup raise `KeyError`, which no handler catches.
  */
  function DecodedOutcome(d: Decoded): (o: Outcome)
    ensures o == Deny(TokenExpired) <==> d == ExpiredSignature
    ensures o == Deny(TokenInvalid) <==> d == InvalidToken
    ensures o.Admit? <==> d.Valid? && d.claims.sub.Some? && d.claims.roles.Some?
    ensures o.Admit? ==> Some(o.ctx.currentUser) == d.claims.sub && Some(o.ctx.userRoles) == d.claims.roles
    ensures o.Raise? ==> o.exception == KeyError
  {
    match d
    case ExpiredSignature => Deny(TokenExpired)
    case InvalidToken => Deny(TokenInvalid)
    case Valid(claims) =>
      if claims.sub.None? || claims.roles.None? then Raise(KeyError)
      else Admit(AuthContext(claims.sub.value, claims.roles.value))
  }

  /** `token_required`: the authentication check run in front of a protected handler. */
  function TokenRequired(settings: Settings, codec: JwtCodec, authorization: Option<string>, now: int): (o: Outcome)
    ensures authorization.None? ==> o == Deny(TokenMissing)
    ensures authorization.Some? && ' ' !in authorization.value ==> o == Raise(IndexError)
    ensures o != Deny(InsufficientPermissions)
  {
    match ExtractToken(authorization)
    case Err(e) => Raise(e)
    case Ok(token) =>
      if token.None? || token.value == [] then Deny(TokenMissing)
      else DecodedOutcome(codec.decode(token.value, settings.secretKey, now))
  }

  /** `any(role in held for role in required)`. */
  function AnyRoleHeld(required: seq<string>, held: seq<string>): (b: bool)
    ensures b <==> exists i :: 0 <= i < |required| && required[i] in held
  {
    if required == [] then false
    else required[0] in held || AnyRoleHeld(required[1..], held)
  }

  /**
    `roles_required(required)`: the authentication check, then the role gate.
    The handler runs iff authentication succeeds and the caller holds at least
    one required role; the 403 comes only after authentication has succeeded.
  */
  function RolesRequired(required: seq<string>, settings: Settings, codec: JwtCodec, authorization: Option<string>, now: int): (o: Outcome)
    ensures var auth := TokenRequired(settings, codec, authorization, now);
      o.Admit? <==> auth.Admit? && exists i :: 0 <= i < |required| && required[i] in auth.ctx.userRoles
    ensures var auth := TokenRequired(settings, codec, authorization, now);
      o == Deny(InsufficientPermissions) <==> auth.Admit? && !o.Admit?
    ensures var auth := TokenRequired(settings, codec, authorization, now);
      o != Deny(InsufficientPermissions) ==> o == auth
    ensures required == [] ==> !o.Admit?
  {
    var auth := TokenRequired(settings, codec, authorization, now);
    if auth.Admit? && !AnyRoleHeld(required, auth.ctx.userRoles) then Deny(InsufficientPermissions)
    else auth
  }

  /**
    With a space-free first word and token, the guard decodes exactly the token:
    the scheme word is not required to be "Bearer", and an empty token field
    counts as a missing token.
  */
  lemma GuardReadsSecondField(settings: Settings, codec: JwtCodec, scheme: string, token: string, tail: string, now: int)
    requires ' ' !in scheme && ' ' !in token
    requires tail == [] || tail[0] == ' '
    ensures token == [] ==> TokenRequired(settings, codec, Some(scheme + [' '] + token + tail), now) == Deny(TokenMissing)
    ensures token != [] ==> TokenRequired(settings, codec, Some(scheme + [' '] + token + tail), now)
                            == DecodedOutcome(codec.decode(token, settings.secretKey, now))
  {
    SecondFieldAfterFirstSpace(scheme, token, tail);
  }

  /** Two headers that differ only in their first word get the same answer, whatever follows it. */
  lemma SchemeNotChecked(settings: Settings, codec: JwtCodec, scheme1: string, scheme2: string, rest: string, now: int)
    requires ' ' !in scheme1 && ' ' !in scheme2
    ensures TokenRequired(settings, codec, Some(scheme1 + [' '] + rest), now)
         == TokenRequired(settings, codec, Some(scheme2 + [' '] + rest), now)
  {
    SplitWordSpace(scheme1, rest);
    SplitWordSpace(scheme2, rest);
  }

  /** A token issued now is accepted from its `iat` until before its `exp`, with the claims it was issued with. */
  lemma IssuedTokenAdmitted(settings: Settings, codec: JwtCodec, scheme: string, username: string, roles: seq<string>,
                            iatClock: int, expClock: int, now: int)
    requires Compact(codec) && AcceptsUntilExpiry(codec) && ' ' !in scheme
    requires iatClock <= now < expClock + TtlSeconds(settings)
    ensures TokenRequired(settings, codec, Some(scheme + [' '] + GenerateJwt(settings, codec, username, roles, iatClock, expClock)), now)
         == Admit(AuthContext(username, roles))
  {
    var payload := IssuePayload(settings, username, roles, iatClock, expClock);
    var token := GenerateJwt(settings, codec, username, roles, iatClock, expClock);
    NoTail(scheme + [' '] + token);
    GuardReadsSecondField(settings, codec, scheme, token, [], now);
    assert codec.decode(token, settings.secretKey, now) == Valid(ClaimsOf(payload));
  }

  /** Once its `exp` has passed, the same token is refused as expired, also by any role gate. */
  lemma IssuedTokenExpired(settings: Settings, codec: JwtCodec, scheme: string, username: string, roles: seq<string>,
                           required: seq<string>, iatClock: int, expClock: int, now: int)
    requires Faithful(codec) && ' ' !in scheme
    requires iatClock <= now && now > expClock + TtlSeconds(settings)
    ensures TokenRequired(settings, codec, Some(scheme + [' '] + GenerateJwt(settings, codec, username, roles, iatClock, expClock)), now)
         == Deny(TokenExpired)
    ensures RolesRequired(required, settings, codec, Some(scheme + [' '] + GenerateJwt(settings, codec, username, roles, iatClock, expClock)), now)
         == Deny(TokenExpired)
  {
    var payload := IssuePayload(settings, username, roles, iatClock, expClock);
    var token := GenerateJwt(settings, codec, username, roles, iatClock, expClock);
    NoTail(scheme + [' '] + token);
    GuardReadsSecondField(settings, codec, scheme, token, [], now);
    assert codec.decode(token, settings.secretKey, now) == ExpiredSignature;
  }

  /** Before its `iat`, the same token is refused as invalid, not as expired, also by any role gate. */
  lemma IssuedTokenImmature(settings: Settings, codec: JwtCodec, scheme: string, username: string, roles: seq<string>,
                            required: seq<string>, iatClock: int, expClock: int, now: int)
    requires Compact(codec) && RejectsBeforeIssue(codec) && ' ' !in scheme
    requires now < iatClock
    ensures TokenRequired(settings, codec, Some(scheme + [' '] + GenerateJwt(settings, codec, username, roles, iatClock, expClock)), now)
         == Deny(TokenInvalid)
    ensures RolesRequired(required, settings, codec, Some(scheme + [' '] + GenerateJwt(settings, codec, username, roles, iatClock, expClock)), now)
         == Deny(TokenInvalid)
  {
    var payload := IssuePayload(settings, username, roles, iatClock, expClock);
    var token := GenerateJwt(settings, codec, username, roles, iatClock, expClock);
    NoTail(scheme + [' '] + token);
    GuardReadsSecondField(settings, codec, scheme, token, [], now);
    assert codec.decode(token, settings.secretKey, now) == InvalidToken;
  }

  /**
    The statuses the guards answer with: authentication failures are always
    401, and a 403 from the role gate means authentication had succeeded.
  */
  lemma GuardStatuses(required: seq<string>, settings: Settings, codec: JwtCodec, authorization: Option<string>, now: int)
    ensures var auth := TokenRequired(settings, codec, authorization, now);
      auth.Deny? ==> auth.denial.Status() == 401
    ensures var auth := TokenRequired(settings, codec, authorization, now);
      var gate := RolesRequired(required, settings, codec, authorization, now);
      gate.Deny? && gate.denial.Status() == 403 ==> auth.Admit? && !gate.Admit?
    ensures var auth := TokenRequired(settings, codec, authorization, now);
      var gate := RolesRequired(required, settings, codec, authorization, now);
      gate.Deny? && !auth.Admit? ==> gate.denial.Status() == 401 && gate == auth
  {
  }

  /** Appending nothing changes nothing. */
  lemma NoTail(s: string)
    ensures s + [] == s
  {
  }
}
