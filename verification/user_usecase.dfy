/** `userUsecase`: registration, authentication, token validation and the
    pass-through store operations, over abstract collaborators. Each
    operation returns its Go result together with the calls it made on its
    collaborators, in order, so that what reaches the store is visible. */
module UserUsecase {
  import opened Wrappers
  import opened Errors
  import opened Dynamic
  import opened GoTime
  import opened Uuids
  import opened Jwt
  import opened Entity
  import opened UserDto
  import TokenService

  /** The `Service` interface: the user store. */
  datatype Service = Service(
    create: User -> Option<Error>,
    getById: string -> Ret<User>,
    getByEmail: string -> Ret<User>,
    update: (string, map<string, Any>) -> Option<Error>,
    delete: string -> Option<Error>)

  /** The `TokenService` interface. */
  datatype TokenPort = TokenPort(create: User -> Ret<string>, parse: string -> Ret<AccessToken>)

  /** bcrypt: `GenerateFromPassword` (it salts, so it is any function that
      may fail) and `CompareHashAndPassword` (`None` on a match). */
  datatype Hasher = Hasher(generate: string -> Ret<string>, compare: (string, string) -> Option<Error>)

  /** `userUsecase`, without the fields no method reads. */
  datatype UserUsecase = UserUsecase(service: Service, tokenService: TokenPort, hasher: Hasher)

  /** One call on a collaborator. */
  datatype Call =
    | HashPassword(password: string)
    | ComparePassword(hash: string, password: string)
    | StoreCreate(user: User)
    | StoreGetById(id: string)
    | StoreGetByEmail(email: string)
    | StoreUpdate(id: string, fields: map<string, Any>)
    | StoreDelete(id: string)
    | TokenCreate(subject: User)
    | TokenParse(token: string)
  {
    predicate IsStoreWrite() {
      StoreCreate? || StoreUpdate? || StoreDelete?
    }

    predicate IsStoreCall() {
      IsStoreWrite() || StoreGetById? || StoreGetByEmail?
    }
  }

  /** A result and the calls made to compute it. */
  datatype Step<T> = Step(out: T, calls: seq<Call>)

  const ErrInvalidCredentials: Error := Message("invalid credentials")

  /** The user `Create` hands to the store for a request whose password
      hashed to `hash`. */
  function StoredUser(dto: CreateDTO, hash: string): User {
    ConvertToEntity(dto.(password := hash))
  }

  /** `u.Create(ctx, dto)`: hash the password, then persist. */
  function Create(uc: UserUsecase, dto: CreateDTO): (s: Step<Option<Error>>)
    ensures |s.calls| > 0 && s.calls[0] == HashPassword(dto.password)
    ensures var hashed := uc.hasher.generate(dto.password);
            forall c | c in s.calls && c.IsStoreCall() ::
              && hashed.Ok() && c.StoreCreate?
              && c.user.email == dto.email && c.user.password == hashed.value
              && c.user.uuid == Nil && c.user.username == ""
    ensures var hashed := uc.hasher.generate(dto.password);
            hashed.Ok() ==> |s.calls| == 2 && s.calls[1].StoreCreate?
    ensures var hashed := uc.hasher.generate(dto.password);
            !hashed.Ok() ==> s.out == Some(Wrap("failed to hash password", hashed.err.value))
    ensures var hashed := uc.hasher.generate(dto.password);
            hashed.Ok() ==>
              var stored := uc.service.create(StoredUser(dto, hashed.value));
              && (stored.None? ==> s.out.None?)
              && (stored.Some? ==> s.out == Some(Wrap("failed to create user", stored.value)))
  {
    var hashed := uc.hasher.generate(dto.password);
    if !hashed.Ok() then
      Step(Some(Wrap("failed to hash password", hashed.err.value)), [HashPassword(dto.password)])
    else
      var user := StoredUser(dto, hashed.value);
      var err := uc.service.create(user);
      var calls := [HashPassword(dto.password), StoreCreate(user)];
      if err.Some? then Step(Some(Wrap("failed to create user", err.value)), calls)
      else Step(None, calls)
  }

  /** `u.Authenticate(ctx, email, password)`: look up, compare, then issue. */
  function Authenticate(uc: UserUsecase, email: string, password: string): (s: Step<Ret<string>>)
    ensures forall c | c in s.calls :: !c.IsStoreWrite()
    ensures |s.calls| > 0 && s.calls[0] == StoreGetByEmail(email)
    ensures var found := uc.service.getByEmail(email);
            !found.Ok() ==> s.out == Ret("", found.err)
    ensures var found := uc.service.getByEmail(email);
            found.Ok() && uc.hasher.compare(found.value.password, password).Some? ==>
              s.out == Ret("", Some(ErrInvalidCredentials))
    ensures var found := uc.service.getByEmail(email);
            forall c | c in s.calls && c.TokenCreate? ::
              && found.Ok() && uc.hasher.compare(found.value.password, password).None?
              && c.subject == found.value
              && s.calls == [StoreGetByEmail(email), ComparePassword(found.value.password, password), c]
    ensures var found := uc.service.getByEmail(email);
            s.out.Ok() <==>
              found.Ok() && uc.hasher.compare(found.value.password, password).None?
              && uc.tokenService.create(found.value).Ok()
    ensures var found := uc.service.getByEmail(email);
            found.Ok() && uc.hasher.compare(found.value.password, password).None? ==>
              && TokenCreate(found.value) in s.calls
              && (uc.tokenService.create(found.value).Ok() ==> s.out == uc.tokenService.create(found.value))
              && (!uc.tokenService.create(found.value).Ok() ==> s.out == Ret("", uc.tokenService.create(found.value).err))
  {
    var found := uc.service.getByEmail(email);
    if !found.Ok() then
      Step(Ret("", found.err), [StoreGetByEmail(email)])
    else
      var user := found.value;
      var compared := uc.hasher.compare(user.password, password);
      if compared.Some? then
        Step(Ret("", Some(ErrInvalidCredentials)), [StoreGetByEmail(email), ComparePassword(user.password, password)])
      else
        var issued := uc.tokenService.create(user);
        var calls := [StoreGetByEmail(email), ComparePassword(user.password, password), TokenCreate(user)];
        if !issued.Ok() then Step(Ret("", issued.err), calls)
        else Step(Ret(issued.value, None), calls)
  }

  /** `u.ValidateToken(ctx, token)`: the token service's verdict, with no
      clock and so no expiry check of its own. */
  function ValidateToken(uc: UserUsecase, token: string): (s: Step<Ret<AccessToken>>)
    ensures s.calls == [TokenParse(token)]
    ensures s.out.err == uc.tokenService.parse(token).err
    ensures s.out.Ok() ==> s.out.value == uc.tokenService.parse(token).value
    ensures !s.out.Ok() ==> s.out.value == ZeroAccessToken
  {
    var parsed := uc.tokenService.parse(token);
    if !parsed.Ok() then Step(Ret(ZeroAccessToken, parsed.err), [TokenParse(token)])
    else Step(Ret(parsed.value, None), [TokenParse(token)])
  }

  /** `u.GetByID(ctx, uuid)`: forwarded; the zero user on error, whatever
      the store returned with it. */
  function GetByID(uc: UserUsecase, id: string): (s: Step<Ret<User>>)
    ensures s.calls == [StoreGetById(id)]
    ensures s.out.err == uc.service.getById(id).err
    ensures s.out.Ok() ==> s.out.value == uc.service.getById(id).value
    ensures !s.out.Ok() ==> s.out.value == ZeroUser
  {
    var found := uc.service.getById(id);
    if !found.Ok() then Step(Ret(ZeroUser, found.err), [StoreGetById(id)])
    else Step(Ret(found.value, None), [StoreGetById(id)])
  }

  /** `u.Update(ctx, uuid, fields)`: forwarded unchanged; a store error is
      wrapped. */
  function Update(uc: UserUsecase, id: string, fields: map<string, Any>): (s: Step<Option<Error>>)
    ensures s.calls == [StoreUpdate(id, fields)]
    ensures s.out.None? <==> uc.service.update(id, fields).None?
    ensures s.out.Some? ==> Unwrap(s.out.value) == uc.service.update(id, fields)
  {
    var err := uc.service.update(id, fields);
    if err.Some? then Step(Some(Wrap("failed to update user", err.value)), [StoreUpdate(id, fields)])
    else Step(None, [StoreUpdate(id, fields)])
  }

  /** `u.Delete(ctx, uuid)`: forwarded unchanged; a store error is wrapped. */
  function Delete(uc: UserUsecase, id: string): (s: Step<Option<Error>>)
    ensures s.calls == [StoreDelete(id)]
    ensures s.out.None? <==> uc.service.delete(id).None?
    ensures s.out.Some? ==> Unwrap(s.out.value) == uc.service.delete(id)
  {
    var err := uc.service.delete(id);
    if err.Some? then Step(Some(Wrap("failed to delete user", err.value)), [StoreDelete(id)])
    else Step(None, [StoreDelete(id)])
  }

  /** Every user `Create` stores has the nil UUID, whatever the request. */
  lemma CreateStoresNilUuid(uc: UserUsecase, dto: CreateDTO)
    ensures forall c | c in Create(uc, dto).calls && c.StoreCreate? :: c.user.uuid == Nil
  {
  }

  /** The use case wired to `tokenService`, issuing at `issuedAt` and with
      the library checking at `checkedAt`. */
  function WithTokenService(uc: UserUsecase, svc: TokenService.TokenService, libs: TokenService.Libraries,
                            issuedAt: Instant, checkedAt: Instant): UserUsecase
  {
    uc.(tokenService := TokenPort(
      u => TokenService.Create(svc, libs, u, issuedAt),
      t => TokenService.Parse(svc, libs, t, checkedAt)))
  }

  /** Wired to `tokenService`, validation is exactly `tokenService.Parse`. */
  lemma ValidateTokenIsParse(uc: UserUsecase, svc: TokenService.TokenService, libs: TokenService.Libraries,
                             issuedAt: Instant, checkedAt: Instant, token: string)
    ensures ValidateToken(WithTokenService(uc, svc, libs, issuedAt, checkedAt), token).out
              == TokenService.Parse(svc, libs, token, checkedAt)
  {
  }

  /** Wired to `tokenService`, no token `Authenticate` hands out ever passes
      `ValidateToken`, whatever the store, the hasher and the clocks. */
  lemma IssuedTokensNeverValidate(uc: UserUsecase, svc: TokenService.TokenService, libs: TokenService.Libraries,
                                                     issuedAt: Instant, checkedAt: Instant, email: string, password: string)
    requires Coherent(libs.jwt)
    ensures var wired := WithTokenService(uc, svc, libs, issuedAt, checkedAt);
            var auth := Authenticate(wired, email, password);
            auth.out.Ok() ==> ValidateToken(wired, auth.out.value).out == Ret(ZeroAccessToken, Some(TokenService.ErrInvalidToken))
  {
    var wired := WithTokenService(uc, svc, libs, issuedAt, checkedAt);
    var auth := Authenticate(wired, email, password);
    if auth.out.Ok() {
      var user := uc.service.getByEmail(email).value;
      assert auth.out == TokenService.Create(svc, libs, user, issuedAt);
      TokenService.IssuedTokenFailsParse(svc, libs, user, issuedAt, checkedAt);
    }
  }

  /** The use case wired to the corrected codec, issuing tokens for `role`. */
  function WithCorrectedTokenService(uc: UserUsecase, svc: TokenService.TokenService, libs: TokenService.Libraries,
                                     role: UserRole, issuedAt: Instant, checkedAt: Instant): UserUsecase
  {
    uc.(tokenService := TokenPort(
      u => TokenService.CreateWithRole(svc, libs, u, role, issuedAt),
      t => TokenService.Parse(svc, libs, t, checkedAt)))
  }

  /** With the corrected codec, a token `Authenticate` hands out validates
      (when the library accepts its signature at `checkedAt`) to the
      looked-up user's UUID and the issued role. */
  lemma CorrectedTokensValidate(uc: UserUsecase, svc: TokenService.TokenService, libs: TokenService.Libraries,
                                                   role: UserRole, issuedAt: Instant, checkedAt: Instant, email: string, password: string)
    requires Coherent(libs.jwt) && Lawful(libs.uuid)
    ensures var wired := WithCorrectedTokenService(uc, svc, libs, role, issuedAt, checkedAt);
            var auth := Authenticate(wired, email, password);
            auth.out.Ok() && libs.jwt.verify(auth.out.value, svc.secret, checkedAt) ==>
              var validated := ValidateToken(wired, auth.out.value).out;
              && validated.Ok()
              && validated.value.userUuid == uc.service.getByEmail(email).value.uuid
              && validated.value.userRole == role
  {
    var wired := WithCorrectedTokenService(uc, svc, libs, role, issuedAt, checkedAt);
    var auth := Authenticate(wired, email, password);
    if auth.out.Ok() && libs.jwt.verify(auth.out.value, svc.secret, checkedAt) {
      var user := uc.service.getByEmail(email).value;
      assert auth.out == TokenService.CreateWithRole(svc, libs, user, role, issuedAt);
      TokenService.CreateWithRoleRoundTrip(svc, libs, user, role, issuedAt, checkedAt);
    }
  }

  /** As written, a failed lookup and a wrong password fail differently:
      the lookup error comes back verbatim, so any lookup error other than
      "invalid credentials" itself tells the two apart. */
  lemma FailuresDistinguishable(uc1: UserUsecase, uc2: UserUsecase, email: string, password: string)
    requires !uc1.service.getByEmail(email).Ok()
    requires uc1.service.getByEmail(email).err != Some(ErrInvalidCredentials)
    requires uc2.service.getByEmail(email).Ok()
    requires uc2.hasher.compare(uc2.service.getByEmail(email).value.password, password).Some?
    ensures Authenticate(uc1, email, password).out.err == uc1.service.getByEmail(email).err
    ensures Authenticate(uc2, email, password).out.err == Some(ErrInvalidCredentials)
    ensures Authenticate(uc1, email, password).out != Authenticate(uc2, email, password).out
  {
  }

  /** `Authenticate` as evidently intended: a failed lookup gives the same
      error as a wrong password. */
  function AuthenticateUniform(uc: UserUsecase, email: string, password: string): (s: Step<Ret<string>>)
    ensures forall c | c in s.calls :: !c.IsStoreWrite()
    ensures var found := uc.service.getByEmail(email);
            !found.Ok() || uc.hasher.compare(found.value.password, password).Some? ==>
              s.out == Ret("", Some(ErrInvalidCredentials))
    ensures var found := uc.service.getByEmail(email);
            found.Ok() && uc.hasher.compare(found.value.password, password).None? ==>
              s == Authenticate(uc, email, password)
  {
    var found := uc.service.getByEmail(email);
    if !found.Ok() then Step(Ret("", Some(ErrInvalidCredentials)), [StoreGetByEmail(email)])
    else Authenticate(uc, email, password)
  }

  /** With the corrected `Authenticate`, an unknown email and a wrong
      password cannot be told apart by the result. */
  lemma UniformFailuresIndistinguishable(uc1: UserUsecase, uc2: UserUsecase, email1: string, email2: string,
                                         password1: string, password2: string)
    requires !uc1.service.getByEmail(email1).Ok()
    requires uc2.service.getByEmail(email2).Ok()
    requires uc2.hasher.compare(uc2.service.getByEmail(email2).value.password, password2).Some?
    ensures AuthenticateUniform(uc1, email1, password1).out == AuthenticateUniform(uc2, email2, password2).out
  {
  }
}
