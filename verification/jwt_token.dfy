/** The older `token` codec of jwt.go. Its methods take the signing method,
    lifetime and secret as arguments, which shadow the struct's fields. */
module JwtToken {
  import opened Wrappers
  import opened Errors
  import opened GoTime
  import opened Strings
  import opened Jwt
  import opened Entity
  import TokenService

  /** `token`: fields set by the constructor and never read. */
  datatype Token = Token(signingMethod: SigningMethod, expiration: Duration, secret: string)

  /** `t.Create(user, signingMethod, exp, secret)` with the clock read
      passed in as `now`; it is `tokenService.Create` configured with the
      arguments, whatever the receiver holds. */
  function Create(t: Token, libs: TokenService.Libraries, user: User, signingMethod: SigningMethod, exp: Duration, secret: string, now: Instant): (r: Ret<string>)
    ensures r == TokenService.Create(TokenService.TokenService(signingMethod, exp, secret), libs, user, now)
  {
    var signed := libs.jwt.signedString(signingMethod.alg, TokenService.IssueClaims(libs.uuid.format(user.uuid), now, exp), secret);
    if signed.Ok() then Ret(signed.value, None) else Ret("", signed.err)
  }

  /** `t.Parse(token, signingMethod, exp, secret)` with the library's clock
      read passed in as `now`; it is `tokenService.Parse` configured with the
      arguments, and the `exp` argument plays no part. */
  function Parse(t: Token, libs: TokenService.Libraries, token: string, signingMethod: SigningMethod, exp: Duration, secret: string, now: Instant): (r: Ret<AccessToken>)
    ensures r == TokenService.Parse(TokenService.TokenService(signingMethod, exp, secret), libs, token, now)
    ensures !r.Ok() ==> r == Ret(ZeroAccessToken, Some(TokenService.ErrInvalidToken))
  {
    match TokenService.Check(libs, signingMethod, secret, token, now)
    case Success(at) => Ret(at, None)
    case Failure(_) => Ret(ZeroAccessToken, Some(TokenService.ErrInvalidToken))
  }

  /** `t.GetAccessToken(header)`: the same prefix rule as `tokenService`. */
  function GetAccessToken(t: Token, accessHead: string): (r: Ret<string>)
    ensures r.Ok() <==> HasPrefix(accessHead, TokenService.BearerPrefix)
    ensures r.Ok() ==> TokenService.BearerPrefix + r.value == accessHead
    ensures !r.Ok() ==> r == Ret("", Some(TokenService.ErrInvalidToken))
  {
    if !HasPrefix(accessHead, TokenService.BearerPrefix) then Ret("", Some(TokenService.ErrInvalidToken))
    else Ret(TrimPrefix(accessHead, TokenService.BearerPrefix), None)
  }

  /** Neither the receiver's fields nor the `exp` argument of `Parse`
      influence anything. */
  lemma ArgumentsShadowFields(t1: Token, t2: Token, libs: TokenService.Libraries, user: User, token: string,
                              signingMethod: SigningMethod, exp1: Duration, exp2: Duration, secret: string, now: Instant)
    ensures Create(t1, libs, user, signingMethod, exp1, secret, now) == Create(t2, libs, user, signingMethod, exp1, secret, now)
    ensures Parse(t1, libs, token, signingMethod, exp1, secret, now) == Parse(t2, libs, token, signingMethod, exp2, secret, now)
  {
  }

  /** Every token this `Create` issues fails this `Parse` with the same
      method and secret, for lack of a `role` claim. */
  lemma IssuedTokenFailsParse(t: Token, libs: TokenService.Libraries, user: User, signingMethod: SigningMethod,
                              exp: Duration, secret: string, issuedAt: Instant, now: Instant)
    requires Coherent(libs.jwt)
    requires Create(t, libs, user, signingMethod, exp, secret, issuedAt).Ok()
    ensures Parse(t, libs, Create(t, libs, user, signingMethod, exp, secret, issuedAt).value, signingMethod, exp, secret, now)
              == Ret(ZeroAccessToken, Some(TokenService.ErrInvalidToken))
  {
    TokenService.IssuedTokenFailsParse(TokenService.TokenService(signingMethod, exp, secret), libs, user, issuedAt, now);
  }

  /** The header rule round-trips as in `tokenService`. */
  lemma BearerRoundTrip(t: Token, token: string)
    ensures GetAccessToken(t, TokenService.BearerPrefix + token) == Ret(token, None)
  {
    TokenService.BearerRoundTrip(TokenService.TokenService(t.signingMethod, t.expiration, t.secret), token);
  }
}
