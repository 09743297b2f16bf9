/** The token codec `tokenService`: issuing a signed claim set, parsing and
    checking one, and taking a token out of an `Authorization` header. */
module TokenService {
  import opened Wrappers
  import opened Errors
  import opened Dynamic
  import opened GoTime
  import opened Strings
  import opened Uuids
  import opened Jwt
  import opened Entity

  /** `tokenService`: the signing method, the token lifetime and the secret. */
  datatype TokenService = TokenService(signingMethod: SigningMethod, expiration: Duration, secret: string)

  /** The libraries the codec calls. */
  datatype Libraries = Libraries(jwt: Library, uuid: Codec)

  /** The one error every failed parse or header check returns. */
  const ErrInvalidToken: Error := Message("ErrInvalidToken.NewWithNoMessage()")

  const BearerPrefix: string := "Bearer "

  /** The checks `Parse` makes, in the order it makes them. */
  datatype Stage = Signature | SubClaim | RoleClaim | ExpClaim | IatClaim | SubjectUuid

  /** `claims[key].(string)` succeeds. */
  predicate StringClaim(claims: MapClaims, key: string) {
    key in claims && claims[key].Str?
  }

  /** `claims[key].(float64)` succeeds. */
  predicate NumberClaim(claims: MapClaims, key: string) {
    key in claims && claims[key].Float64?
  }

  /** The registered claims `Create` puts in a token issued at `now` for
      the subject string `subject`: `iat` is the second of issue and `exp`
      lies `expiration` later, rounded down to the second. */
  function IssueClaims(subject: string, now: Instant, expiration: Duration): (c: MapClaims)
    ensures c.Keys == {"sub", "iat", "exp"}
    ensures c["sub"] == Str(subject)
    ensures c["iat"].Int64? && c["exp"].Int64?
    ensures c["iat"].i * NanosPerSecond <= now < c["iat"].i * NanosPerSecond + NanosPerSecond
    ensures c["iat"].i + expiration / NanosPerSecond <= c["exp"].i <= c["iat"].i + expiration / NanosPerSecond + 1
    ensures expiration % NanosPerSecond == 0 ==> c["exp"].i == c["iat"].i + expiration / NanosPerSecond
  {
    UnixAddBounds(now, expiration);
    map["sub" := Str(subject), "iat" := Int64(Unix(now)), "exp" := Int64(Unix(Add(now, expiration)))]
  }

  /** `t.Create(user)` with the clock read passed in as `now`. */
  function Create(svc: TokenService, libs: Libraries, user: User, now: Instant): (r: Ret<string>)
    ensures !r.Ok() ==> r.value == ""
  {
    var signed := libs.jwt.signedString(svc.signingMethod.alg, IssueClaims(libs.uuid.format(user.uuid), now, svc.expiration), svc.secret);
    if signed.Ok() then Ret(signed.value, None) else Ret("", signed.err)
  }

  /** What `Create` signs: the configured method's alg, the issued claims
      of the user's UUID string, and the configured secret; a signing error
      comes back with an empty token. */
  lemma CreateSigns(svc: TokenService, libs: Libraries, user: User, now: Instant)
    ensures var claims := IssueClaims(libs.uuid.format(user.uuid), now, svc.expiration);
            var signed := libs.jwt.signedString(svc.signingMethod.alg, claims, svc.secret);
            && (Create(svc, libs, user, now).Ok() <==> signed.Ok())
            && (signed.Ok() ==> Create(svc, libs, user, now).value == signed.value)
            && (!signed.Ok() ==> Create(svc, libs, user, now) == Ret("", signed.err))
  {
  }

  /** The key function handed to the library: a token whose header alg is
      not the expected method's alg gets no key. */
  function KeyFunc(signingMethod: SigningMethod, secret: string): (f: string -> Option<string>)
    ensures f(signingMethod.alg) == Some(secret)
    ensures forall alg :: alg != signingMethod.alg ==> f(alg) == None
  {
    alg => if alg != signingMethod.alg then None else Some(secret)
  }

  /** The checks `Parse` makes, for a given method and secret, reporting the
      first that fails. */
  function Check(libs: Libraries, signingMethod: SigningMethod, secret: string, token: string, now: Instant): (r: Result<AccessToken, Stage>)
    ensures var parsed := ParseWithClaims(libs.jwt, token, KeyFunc(signingMethod, secret), now);
            && (r == Failure(Signature) <==> parsed.None?)
            && (r == Failure(SubClaim) <==> parsed.Some? && !StringClaim(parsed.value, "sub"))
            && (r == Failure(RoleClaim) <==> parsed.Some? && StringClaim(parsed.value, "sub") && !StringClaim(parsed.value, "role"))
            && (r == Failure(ExpClaim) <==>
                  parsed.Some? && StringClaim(parsed.value, "sub") && StringClaim(parsed.value, "role")
                  && !NumberClaim(parsed.value, "exp"))
            && (r == Failure(IatClaim) <==>
                  parsed.Some? && StringClaim(parsed.value, "sub") && StringClaim(parsed.value, "role")
                  && NumberClaim(parsed.value, "exp") && !NumberClaim(parsed.value, "iat"))
            && (r == Failure(SubjectUuid) <==>
                  parsed.Some? && StringClaim(parsed.value, "sub") && StringClaim(parsed.value, "role")
                  && NumberClaim(parsed.value, "exp") && NumberClaim(parsed.value, "iat")
                  && libs.uuid.parse(parsed.value["sub"].s).None?)
    ensures r.Success? ==>
              var claims := ParseWithClaims(libs.jwt, token, KeyFunc(signingMethod, secret), now).value;
              && libs.uuid.parse(claims["sub"].s) == Some(r.value.userUuid)
              && r.value.userRole == UserRole(claims["role"].s)
              && r.value.expiresAt == FromUnix(TruncateToInt(claims["exp"].x))
              && r.value.issuedAt == FromUnix(TruncateToInt(claims["iat"].x))
  {
    match ParseWithClaims(libs.jwt, token, KeyFunc(signingMethod, secret), now)
    case None => Failure(Signature)
    case Some(claims) =>
      match AsString(claims, "sub")
      case None => Failure(SubClaim)
      case Some(sub) =>
        match AsString(claims, "role")
        case None => Failure(RoleClaim)
        case Some(role) =>
          match AsFloat64(claims, "exp")
          case None => Failure(ExpClaim)
          case Some(exp) =>
            match AsFloat64(claims, "iat")
            case None => Failure(IatClaim)
            case Some(iat) =>
              var at := SetUserRoleFromString(ZeroAccessToken, role);
              match libs.uuid.parse(sub)
              case None => Failure(SubjectUuid)
              case Some(id) =>
                Success(at.(userUuid := id, expiresAt := FromUnix(TruncateToInt(exp)), issuedAt := FromUnix(TruncateToInt(iat))))
  }

  /** `t.Parse(token)`, with the library's clock read passed in as `now`:
      every failing check gives the zero token and the same error. */
  function Parse(svc: TokenService, libs: Libraries, token: string, now: Instant): (r: Ret<AccessToken>)
    ensures r.Ok() <==> Check(libs, svc.signingMethod, svc.secret, token, now).Success?
    ensures r.Ok() ==> r.value == Check(libs, svc.signingMethod, svc.secret, token, now).value
    ensures !r.Ok() ==> r == Ret(ZeroAccessToken, Some(ErrInvalidToken))
  {
    match Check(libs, svc.signingMethod, svc.secret, token, now)
    case Success(at) => Ret(at, None)
    case Failure(_) => Ret(ZeroAccessToken, Some(ErrInvalidToken))
  }

  /** A token whose header names another algorithm is rejected whatever its
      signature and claims. */
  lemma AlgMismatchRejected(svc: TokenService, libs: Libraries, token: string, now: Instant)
    requires libs.jwt.parseUnverified(token).Some?
    requires libs.jwt.parseUnverified(token).value.alg != svc.signingMethod.alg
    ensures Check(libs, svc.signingMethod, svc.secret, token, now) == Failure(Signature)
    ensures Parse(svc, libs, token, now) == Ret(ZeroAccessToken, Some(ErrInvalidToken))
  {
  }

  /** `Parse` succeeds exactly when the library accepts the token and the
      claims have the right types and a parsable subject; the role is then
      any string at all, kept verbatim. */
  lemma ParseAccepts(svc: TokenService, libs: Libraries, token: string, now: Instant)
    ensures var parsed := ParseWithClaims(libs.jwt, token, KeyFunc(svc.signingMethod, svc.secret), now);
            Parse(svc, libs, token, now).Ok() <==>
              && parsed.Some?
              && StringClaim(parsed.value, "sub") && StringClaim(parsed.value, "role")
              && NumberClaim(parsed.value, "exp") && NumberClaim(parsed.value, "iat")
              && libs.uuid.parse(parsed.value["sub"].s).Some?
    ensures var parsed := ParseWithClaims(libs.jwt, token, KeyFunc(svc.signingMethod, svc.secret), now);
            Parse(svc, libs, token, now).Ok() ==> UserRoleToString(Parse(svc, libs, token, now).value) == parsed.value["role"].s
  {
  }

  /** Every token `Create` issues fails `Parse` with the same service: the
      claim set has no `role`, which `Parse` demands. When the library
      accepts the signature the failing check is the role check. */
  lemma IssuedTokenFailsParse(svc: TokenService, libs: Libraries, user: User, issuedAt: Instant, now: Instant)
    requires Coherent(libs.jwt)
    requires Create(svc, libs, user, issuedAt).Ok()
    ensures var token := Create(svc, libs, user, issuedAt).value;
            Check(libs, svc.signingMethod, svc.secret, token, now)
              == Failure(if libs.jwt.verify(token, svc.secret, now) then RoleClaim else Signature)
    ensures Parse(svc, libs, Create(svc, libs, user, issuedAt).value, now) == Ret(ZeroAccessToken, Some(ErrInvalidToken))
  {
  }

  /** The claims of the corrected `Create`: the registered claims plus the
      role the token is issued for. */
  function IssueClaimsWithRole(subject: string, role: UserRole, now: Instant, expiration: Duration): (c: MapClaims)
    ensures c.Keys == {"sub", "iat", "exp", "role"}
    ensures c["role"] == Str(role.name)
    ensures c - {"role"} == IssueClaims(subject, now, expiration)
  {
    IssueClaims(subject, now, expiration)["role" := Str(role.name)]
  }

  /** `Create` as evidently intended: it also emits the `role` claim. */
  function CreateWithRole(svc: TokenService, libs: Libraries, user: User, role: UserRole, now: Instant): (r: Ret<string>)
    ensures !r.Ok() ==> r.value == ""
  {
    var signed := libs.jwt.signedString(svc.signingMethod.alg, IssueClaimsWithRole(libs.uuid.format(user.uuid), role, now, svc.expiration), svc.secret);
    if signed.Ok() then Ret(signed.value, None) else Ret("", signed.err)
  }

  /** The corrected `Create` round-trips through `Parse`: when the library
      accepts the signature, the parsed token names the user, the role, and
      the issue and expiry seconds. */
  lemma CreateWithRoleRoundTrip(svc: TokenService, libs: Libraries, user: User, role: UserRole, issuedAt: Instant, now: Instant)
    requires Coherent(libs.jwt) && Lawful(libs.uuid)
    requires CreateWithRole(svc, libs, user, role, issuedAt).Ok()
    requires libs.jwt.verify(CreateWithRole(svc, libs, user, role, issuedAt).value, svc.secret, now)
    ensures Parse(svc, libs, CreateWithRole(svc, libs, user, role, issuedAt).value, now)
              == Ret(AccessToken(user.uuid, FromUnix(Unix(issuedAt)), FromUnix(Unix(issuedAt + svc.expiration)), role), None)
  {
    var subject := libs.uuid.format(user.uuid);
    var claims := IssueClaimsWithRole(subject, role, issuedAt, svc.expiration);
    var signed := libs.jwt.signedString(svc.signingMethod.alg, claims, svc.secret);
    assert signed.Ok();
    var token := signed.value;
    assert libs.jwt.parseUnverified(token) == Some(Unverified(svc.signingMethod.alg, ThroughJson(claims)));
    var json := ThroughJson(claims);
    assert json["sub"] == Str(subject);
    assert json["role"] == Str(role.name);
    assert json["exp"] == Float64(Unix(issuedAt + svc.expiration) as real);
    assert json["iat"] == Float64(Unix(issuedAt) as real);
    TruncateWhole(Unix(issuedAt + svc.expiration));
    TruncateWhole(Unix(issuedAt));
    assert libs.uuid.parse(subject) == Some(user.uuid);
  }

  /** `t.GetAccessToken(header)`: the token after an exact, case-sensitive
      "Bearer " prefix. */
  function GetAccessToken(svc: TokenService, accessHead: string): (r: Ret<string>)
    ensures r.Ok() <==> HasPrefix(accessHead, BearerPrefix)
    ensures r.Ok() ==> BearerPrefix + r.value == accessHead
    ensures !r.Ok() ==> r == Ret("", Some(ErrInvalidToken))
  {
    if !HasPrefix(accessHead, BearerPrefix) then Ret("", Some(ErrInvalidToken))
    else Ret(TrimPrefix(accessHead, BearerPrefix), None)
  }

  /** Prefixing "Bearer " and taking the token off again gives the token
      back, the empty one included, and only one prefix is removed. */
  lemma BearerRoundTrip(svc: TokenService, token: string)
    ensures GetAccessToken(svc, BearerPrefix + token) == Ret(token, None)
    ensures GetAccessToken(svc, BearerPrefix + BearerPrefix + token) == Ret(BearerPrefix + token, None)
  {
    assert (BearerPrefix + token)[..|BearerPrefix|] == BearerPrefix;
    assert (BearerPrefix + token)[|BearerPrefix|..] == token;
    assert BearerPrefix + BearerPrefix + token == BearerPrefix + (BearerPrefix + token);
    assert (BearerPrefix + (BearerPrefix + token))[..|BearerPrefix|] == BearerPrefix;
    assert (BearerPrefix + (BearerPrefix + token))[|BearerPrefix|..] == BearerPrefix + token;
  }

  /** The prefix match is case-sensitive and needs the space. */
  lemma BearerIsExact(svc: TokenService, token: string)
    ensures !GetAccessToken(svc, "bearer " + token).Ok()
    ensures !GetAccessToken(svc, "Bearer").Ok()
    ensures token == [] || token[0] != ' ' ==> !GetAccessToken(svc, "Bearer" + token).Ok()
  {
    assert ("bearer " + token)[0] == 'b';
    if |"Bearer" + token| >= 7 {
      assert ("Bearer" + token)[6] == token[0];
    }
  }
}
