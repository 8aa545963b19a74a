/** middleware/auth.js: where a request's token comes from, what a token
    must satisfy, the checks `authenticateToken` makes in order, the role
    gates, the lenient `optionalAuth`, the claims of an issued token and the
    cookie options. JWT signing is not modelled: a token decodes, through a
    function the caller passes in, to its claims and whether its signature
    holds under the server secret. */
module AuthMiddleware {
  import opened Common
  import opened UserModel

  /** `s.split(sep)`: the pieces between the separators, empty ones included. */
  function Split(s: string, sep: char): (r: seq<string>)
    ensures |r| >= 1
    ensures forall i :: 0 <= i < |r| ==> sep !in r[i]
  {
    if s == [] then [""]
    else if s[0] == sep then [""] + Split(s[1..], sep)
    else
      var rest := Split(s[1..], sep);
      [[s[0]] + rest[0]] + rest[1..]
  }

  /** `parts.join(sep)`. */
  function Join(parts: seq<string>, sep: char): string
    requires |parts| >= 1
  {
    if |parts| == 1 then parts[0] else parts[0] + [sep] + Join(parts[1..], sep)
  }

  /** Splitting loses nothing: joining the pieces gives the string back. */
  lemma {:induction false} JoinSplit(s: string, sep: char)
    ensures Join(Split(s, sep), sep) == s
  {
    if s != [] {
      JoinSplit(s[1..], sep);
      var rest := Split(s[1..], sep);
      if s[0] == sep {
        assert Split(s, sep)[1..] == rest;
      } else {
        var r := Split(s, sep);
        assert r[1..] == rest[1..];
        if |rest| > 1 {
          assert Join(rest, sep) == rest[0] + [sep] + Join(rest[1..], sep);
        }
      }
    }
  }

  /** Joining pieces that hold no separator and splitting again gives the pieces back. */
  lemma {:induction false} SplitJoin(parts: seq<string>, sep: char)
    requires |parts| >= 1
    requires forall i :: 0 <= i < |parts| ==> sep !in parts[i]
    ensures Split(Join(parts, sep), sep) == parts
    decreases |parts|, |parts[0]|
  {
    if parts[0] != [] {
      var p := parts[0];
      var tail := [p[1..]] + parts[1..];
      SplitJoin(tail, sep);
      var j := Join(parts, sep);
      if |parts| == 1 {
        assert j[1..] == Join(tail, sep);
      } else {
        assert j[1..] == Join(tail, sep) by {
          assert j == p + [sep] + Join(parts[1..], sep);
          assert Join(tail, sep) == p[1..] + [sep] + Join(parts[1..], sep);
        }
      }
      assert j[0] == p[0];
      assert [p[0]] + p[1..] == p;
    } else if |parts| > 1 {
      SplitJoin(parts[1..], sep);
      assert Join(parts, sep) == [sep] + Join(parts[1..], sep);
      assert Join(parts, sep)[1..] == Join(parts[1..], sep);
    }
  }

  /** The token a request carries: the `token` cookie when it is non-empty,
      otherwise the second space-separated word of the Authorization header
      (whatever the first word says); the empty string stands for none. */
  function ExtractToken(cookie: Option<string>, authorization: Option<string>): (t: string)
    ensures cookie.Some? && cookie.value != "" ==> t == cookie.value
    ensures !(cookie.Some? && cookie.value != "") && authorization.Some? && |Split(authorization.value, ' ')| >= 2
            ==> t == Split(authorization.value, ' ')[1]
    ensures !(cookie.Some? && cookie.value != "") && (authorization.None? || |Split(authorization.value, ' ')| < 2)
            ==> t == ""
  {
    if cookie.Some? && cookie.value != "" then cookie.value
    else if authorization.Some? then
      var words := Split(authorization.value, ' ');
      if |words| >= 2 then words[1] else ""
    else ""
  }

  /** The header `<scheme> <token>` yields the token for any scheme word,
      "Bearer" or not. */
  lemma SchemeWordIgnored(scheme: string, token: string)
    requires ' ' !in scheme && ' ' !in token
    ensures ExtractToken(None, Some(scheme + " " + token)) == token
  {
    SplitJoin([scheme, token], ' ');
    assert Join([scheme, token], ' ') == scheme + " " + token by {
      assert Join([scheme, token][1..], ' ') == token;
    }
  }

  /** The registered claims of a token (section 4.1 of RFC 7519); times in seconds. */
  datatype Claims = Claims(userId: Id, iat: int, exp: int, iss: string, aud: string)

  /** What the decoding function finds in a token: its claims, and whether
      the signature holds under the server secret. */
  datatype Decoded = Decoded(signatureValid: bool, claims: Claims)

  /** The outcome of `jwt.verify`. */
  datatype Verification = Verified(userId: Id) | InvalidToken | ExpiredToken

  const ISSUER := "compassion-course"
  const AUDIENCE := "compassion-course-users"

  /** Twenty-four hours, in seconds (`expiresIn: '24h'`). */
  const TOKEN_LIFETIME: int := 24 * 60 * 60

  /** `jwt.verify(token, secret)` with no options: a token that does not
      decode or whose signature fails is invalid, one whose `exp` has been
      reached is expired; issuer and audience are not checked. */
  function Verify(token: string, decode: string -> Option<Decoded>, nowSeconds: int): (r: Verification)
    ensures r.Verified? <==> decode(token).Some? && decode(token).value.signatureValid
                             && nowSeconds < decode(token).value.claims.exp
    ensures r.Verified? ==> r.userId == decode(token).value.claims.userId
    ensures r.ExpiredToken? <==> decode(token).Some? && decode(token).value.signatureValid
                                 && nowSeconds >= decode(token).value.claims.exp
  {
    match decode(token)
    case None => InvalidToken
    case Some(d) =>
      if !d.signatureValid then InvalidToken
      else if nowSeconds >= d.claims.exp then ExpiredToken
      else Verified(d.claims.userId)
  }

  /** The claims `generateToken` signs: issued now, expiring 24 hours later,
      with this site's issuer and audience. */
  function GenerateClaims(userId: Id, now: Millis): (c: Claims)
    ensures c.userId == userId && c.exp == c.iat + TOKEN_LIFETIME
    ensures c.iat * 1000 <= now < (c.iat + 1) * 1000
    ensures c.iss == ISSUER && c.aud == AUDIENCE
  {
    var iat := now / 1000;
    Claims(userId, iat, iat + TOKEN_LIFETIME, ISSUER, AUDIENCE)
  }

  /** A properly signed token issued at `issued` verifies to its user for
      24 hours and is expired from then on. */
  lemma IssuedTokenLifetime(token: string, decode: string -> Option<Decoded>, userId: Id, issued: Millis, nowSeconds: int)
    requires decode(token) == Some(Decoded(true, GenerateClaims(userId, issued)))
    ensures nowSeconds < issued / 1000 + TOKEN_LIFETIME ==> Verify(token, decode, nowSeconds) == Verified(userId)
    ensures nowSeconds >= issued / 1000 + TOKEN_LIFETIME ==> Verify(token, decode, nowSeconds) == ExpiredToken
  {
  }

  /** Verification looks at neither the issuer nor the audience: two tokens
      whose claims differ only there verify alike. */
  lemma IssuerAndAudienceIgnored(t1: string, t2: string, decode: string -> Option<Decoded>, nowSeconds: int)
    requires decode(t1).Some? && decode(t2).Some?
    requires decode(t1).value.signatureValid == decode(t2).value.signatureValid
    requires decode(t1).value.claims.(iss := "", aud := "") == decode(t2).value.claims.(iss := "", aud := "")
    ensures Verify(t1, decode, nowSeconds) == Verify(t2, decode, nowSeconds)
  {
  }

  /** What a middleware does with the request: pass it on, or answer it. */
  datatype Outcome = Next | Reject(status: int, error: string)

  /** The parts of an Express request the middleware reads and writes. */
  class Request {
    var cookieToken: Option<string>
    var authorization: Option<string>
    var user: Option<User>

    constructor (cookieToken: Option<string>, authorization: Option<string>)
      ensures this.cookieToken == cookieToken && this.authorization == authorization && user.None?
    {
      this.cookieToken, this.authorization, user := cookieToken, authorization, None;
    }
  }

  /** The user the decoded token names, if it exists and is active, read
      without its password hash (`select('-password')`). */
  function SessionUser(token: string, decode: string -> Option<Decoded>, users: seq<User>, nowSeconds: int): Option<User> {
    var v := Verify(token, decode, nowSeconds);
    if token == "" || !v.Verified? then None
    else match FindUser(users, v.userId)
      case None => None
      case Some(i) => if users[i].isActive then Some(users[i].(password := "")) else None
  }

  /** `authenticateToken`. The checks come in this order: no token (401),
      invalid token (401), expired token (401), no such user (401), inactive
      user (401); a failing store lookup gives 500. Only an existing, active
      user is attached to the request and passed on. */
  method AuthenticateToken(req: Request, decode: string -> Option<Decoded>, users: seq<User>,
                           dbError: bool, nowSeconds: int) returns (outcome: Outcome)
    modifies req
    ensures var token := ExtractToken(req.cookieToken, req.authorization);
      var v := Verify(token, decode, nowSeconds);
      && (token == "" ==> outcome == Reject(401, "Access denied. No token provided."))
      && (token != "" && v.InvalidToken? ==> outcome == Reject(401, "Invalid token."))
      && (token != "" && v.ExpiredToken? ==> outcome == Reject(401, "Token expired."))
      && (token != "" && v.Verified? && dbError ==> outcome == Reject(500, "Internal server error."))
      && ((token != "" && v.Verified? && !dbError && FindUser(users, v.userId).None?)
            ==> outcome == Reject(401, "Invalid token. User not found."))
      && ((token != "" && v.Verified? && !dbError && FindUser(users, v.userId).Some?
             && !users[FindUser(users, v.userId).value].isActive)
            ==> outcome == Reject(401, "Account is deactivated."))
      && (outcome == Next <==> !dbError && SessionUser(token, decode, users, nowSeconds).Some?)
      && (outcome == Next ==> req.user == SessionUser(token, decode, users, nowSeconds))
      && (outcome != Next ==> req.user == old(req.user))
    ensures req.cookieToken == old(req.cookieToken) && req.authorization == old(req.authorization)
  {
    var token := ExtractToken(req.cookieToken, req.authorization);
    if token == "" {
      return Reject(401, "Access denied. No token provided.");
    }
    var v := Verify(token, decode, nowSeconds);
    if v.InvalidToken? {
      return Reject(401, "Invalid token.");
    }
    if v.ExpiredToken? {
      return Reject(401, "Token expired.");
    }
    if dbError {
      return Reject(500, "Internal server error.");
    }
    var found := FindUser(users, v.userId);
    if found.None? {
      return Reject(401, "Invalid token. User not found.");
    }
    var user := users[found.value];
    if !user.isActive {
      return Reject(401, "Account is deactivated.");
    }
    req.user := Some(user.(password := ""));
    return Next;
  }

  /** `optionalAuth`: always passes the request on; attaches the user only
      when the token verifies and names an existing, active user. Any failure
      is swallowed. */
  method OptionalAuth(req: Request, decode: string -> Option<Decoded>, users: seq<User>,
                      dbError: bool, nowSeconds: int) returns (outcome: Outcome)
    modifies req
    ensures outcome == Next
    ensures var s := SessionUser(ExtractToken(req.cookieToken, req.authorization), decode, users, nowSeconds);
      req.user == if s.Some? && !dbError then s else old(req.user)
    ensures req.cookieToken == old(req.cookieToken) && req.authorization == old(req.authorization)
  {
    var token := ExtractToken(req.cookieToken, req.authorization);
    if token != "" {
      var v := Verify(token, decode, nowSeconds);
      if v.Verified? && !dbError {
        var found := FindUser(users, v.userId);
        if found.Some? && users[found.value].isActive {
          req.user := Some(users[found.value].(password := ""));
        }
      }
    }
    return Next;
  }

  /** `roles.join(', ')` over the role names. */
  function RoleList(roles: seq<Role>): string {
    if roles == [] then ""
    else if |roles| == 1 then RoleName(roles[0])
    else RoleName(roles[0]) + ", " + RoleList(roles[1..])
  }

  /** `requireRole(roles)`: passes iff there is a user whose role is listed;
      401 without a user, 403 naming the roles otherwise. */
  function RequireRole(roles: seq<Role>, user: Option<User>): (r: Outcome)
    ensures r == Next <==> user.Some? && user.value.role in roles
    ensures user.None? ==> r == Reject(401, "Authentication required.")
    ensures user.Some? && user.value.role !in roles
            ==> r == Reject(403, "Access denied. Required roles: " + RoleList(roles))
  {
    if user.None? then Reject(401, "Authentication required.")
    else if user.value.role !in roles then Reject(403, "Access denied. Required roles: " + RoleList(roles))
    else Next
  }

  /** `requireAdmin`. */
  function RequireAdmin(user: Option<User>): (r: Outcome)
    ensures r == Next <==> user.Some? && (user.value.role == AdminRole || user.value.role == SuperAdminRole)
    ensures r != Next ==> r.status == (if user.None? then 401 else 403)
  {
    if user.None? then Reject(401, "Authentication required.")
    else if user.value.role != AdminRole && user.value.role != SuperAdminRole then Reject(403, "Admin access required.")
    else Next
  }

  /** `requireSuperAdmin`. */
  function RequireSuperAdmin(user: Option<User>): (r: Outcome)
    ensures r == Next <==> user.Some? && user.value.role == SuperAdminRole
    ensures r != Next ==> r.status == (if user.None? then 401 else 403)
  {
    if user.None? then Reject(401, "Authentication required.")
    else if user.value.role != SuperAdminRole then Reject(403, "Super admin access required.")
    else Next
  }

  /** `requireAdmin` decides as `requireRole(['admin', 'super-admin'])` does,
      and `requireSuperAdmin` as `requireRole(['super-admin'])`; only the 403
      wording differs. */
  lemma RoleGatesAgree(user: Option<User>)
    ensures RequireAdmin(user).Next? == RequireRole([AdminRole, SuperAdminRole], user).Next?
    ensures RequireAdmin(user).Reject? ==>
              RequireAdmin(user).status == RequireRole([AdminRole, SuperAdminRole], user).status
    ensures RequireSuperAdmin(user).Next? == RequireRole([SuperAdminRole], user).Next?
    ensures RequireSuperAdmin(user).Reject? ==>
              RequireSuperAdmin(user).status == RequireRole([SuperAdminRole], user).status
  {
  }

  datatype CookieOptions = CookieOptions(httpOnly: bool, secure: bool, sameSite: string,
                                         maxAge: Option<int>, path: string)

  /** `setTokenCookie`'s options. */
  function SetCookieOptions(production: bool): CookieOptions {
    CookieOptions(true, production, "strict", Some(24 * 60 * 60 * 1000), "/")
  }

  /** `clearTokenCookie`'s options. */
  function ClearCookieOptions(production: bool): CookieOptions {
    CookieOptions(true, production, "strict", None, "/")
  }

  /** Setting and clearing use the same cookie attributes, so the browser
      matches and removes the cookie it was given; only setting carries a
      lifetime, 24 hours, equal to the token's own. */
  lemma CookieOptionsMatch(production: bool)
    ensures SetCookieOptions(production).(maxAge := None) == ClearCookieOptions(production)
    ensures SetCookieOptions(production).maxAge == Some(TOKEN_LIFETIME * 1000)
    ensures SetCookieOptions(production).httpOnly && SetCookieOptions(production).secure == production
  {
  }
}
