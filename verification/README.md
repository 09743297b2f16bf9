# Token and credential logic of the auth service, in Dafny

This project models the logic the auth service writes itself, with the
libraries and the store left abstract:

- the token codec `tokenService` (internal/domain/service/token.go) and its
  older, argument-taking duplicate `token` (internal/domain/service/jwt.go):
  building the `sub`/`iat`/`exp` claim set (section 4.1 of RFC 7519), the
  header `alg` gate on parse (section 4.1.1 of RFC 7515), the typed claim
  checks, and removal of the `Bearer ` prefix (section 2.1 of RFC 6750);
- the `AccessToken` entity, its expiry predicate and its string-backed role;
- the user use case: register (hash, then persist), authenticate (look up,
  compare, then issue), validate, and the pass-through store operations;
- the registration DTO and the Postgres row conversions.

Modules follow the Go packages: `TokenService`, `JwtToken`, `Entity`,
`UserUsecase`, `UserDto` and `PgxModel`. They rest on small models of what
the code calls: `Errors` (Go errors and `(value, error)` pairs), `GoTime`,
`Strings`, `Uuids`, `Dynamic` (values of type `any` and type assertions)
and `Jwt` (golang-jwt).

Collaborators are records of functions passed as arguments. These are the
JWT library (sign, structural decode, verify), the UUID codec, bcrypt, the
user store and the token service port. Two assumptions are named
predicates that a lemma must require:

- `Jwt.Coherent`: a token the library signs decodes to the signing alg and
  to the signed claims as they come back through JSON.
- `Uuids.Lawful`: parsing a UUID's string form gives the UUID back.

Clock reads (`time.Now()`) are explicit `Instant` arguments, in nanoseconds
since the Unix epoch. Each use-case operation returns its Go result together
with the list of collaborator calls it made, in order. That list is how the
model states what reaches the store and what is never called.

The service is meant to issue tokens that carry a role, to check expiry on
validation, to report distinct token errors, to give each new user a fresh
id and to hide whether an email is registered. The code does not do all of
this, and the model follows the code:

- `Create` emits no `role` claim.
- Neither `Parse` nor `ValidateToken` checks expiry themselves. Only the
  library's internal validation does, folded into `Jwt.Library.verify`.
- `Parse` has one opaque error for every failure, not distinct error kinds.
- A registered user gets the nil UUID, not a freshly generated one.
- `Authenticate` returns the store's lookup error verbatim.

The first and last of these are logged under Findings.

## Model

| member | source | states |
|---|---|---|
| TokenService.IssueClaims | internal/domain/service/token.go:31-36 | the claim keys are exactly `sub`, `iat`, `exp` (so never `role`); `sub` is the UUID string; `iat` is the second containing `now`; `exp` is `iat` plus the lifetime's whole seconds, exactly so if the lifetime is whole seconds, and at most one second more otherwise |
| TokenService.CreateSigns | internal/domain/service/token.go:37-45 | `Create` succeeds iff signing with the configured method's alg, the issued claims and the configured secret succeeds, returning that token; a signing failure returns `""` and the signing error |
| TokenService.Create | internal/domain/service/token.go:30-46 | on failure the token string is empty |
| TokenService.KeyFunc | internal/domain/service/token.go:50-55 | the key function yields the secret for the expected alg and no key for any other alg |
| TokenService.Check | internal/domain/service/token.go:48-93 | the checks run in order signature/alg, `sub` string, `role` string, `exp` number, `iat` number, `sub` parses as UUID; each check fails exactly when the earlier ones pass and it does not. On success the UUID is the parsed `sub`, the role is the `role` string verbatim, and `exp`/`iat` are truncated toward zero to whole seconds |
| TokenService.Parse | internal/domain/service/token.go:56-93 | parse succeeds iff every check passes; every failure returns the zero token and the same `ErrInvalidToken` error |
| TokenService.AlgMismatchRejected | internal/domain/service/token.go:50-58 | a token whose header alg differs from the configured one is rejected at the first gate, whatever its signature and claims |
| TokenService.ParseAccepts | internal/domain/service/token.go:60-93 | parse succeeds iff the library accepts the token, `sub`/`role` are strings, `exp`/`iat` are float64 numbers and `sub` parses; the role string is kept verbatim, with no check that it is "user" or "admin" |
| TokenService.IssuedTokenFailsParse | internal/domain/service/token.go:32-68 | for every user, clock and library that decodes what it signs, a token `Create` issues fails `Parse`; when the signature is accepted it fails at the `role` check |
| TokenService.CreateWithRoleRoundTrip | internal/domain/service/token.go:30-94 | the corrected `Create`, which also emits `role`, round-trips: `Parse` yields the user's UUID, the role, and the issue and expiry seconds |
| TokenService.GetAccessToken | internal/domain/service/token.go:96-104 | succeeds iff the header starts with exactly `Bearer ` and then returns the rest; otherwise returns `""` and `ErrInvalidToken` |
| TokenService.BearerRoundTrip | internal/domain/service/token.go:96-104 | `GetAccessToken("Bearer " + s)` is `s` for every `s`, including `""`; only one prefix is removed |
| TokenService.BearerIsExact | internal/domain/service/token.go:97-100 | the match is case-sensitive and needs the space: `bearer x`, `Bearer` and `Bearerx` are rejected |
| JwtToken.Create | internal/domain/service/jwt.go:30-51 | equals `tokenService.Create` configured with the `signingMethod`, `exp` and `secret` arguments, whatever the receiver holds |
| JwtToken.Parse | internal/domain/service/jwt.go:53-104 | equals `tokenService.Parse` configured with the `signingMethod` and `secret` arguments; every failure is the zero token with `ErrInvalidToken` |
| JwtToken.ArgumentsShadowFields | internal/domain/service/jwt.go:12-65 | the receiver's fields never matter to `Create` or `Parse`, and the `exp` argument of `Parse` is unused |
| JwtToken.IssuedTokenFailsParse | internal/domain/service/jwt.go:37-78 | a token this `Create` issues fails this `Parse` with the same method and secret, for lack of `role` |
| JwtToken.GetAccessToken | internal/domain/service/jwt.go:106-114 | the same exact-prefix rule as `tokenService` |
| JwtToken.BearerRoundTrip | internal/domain/service/jwt.go:106-114 | `GetAccessToken("Bearer " + s)` is `s` |
| Entity.Expired | internal/domain/entity/token.go:23-25 | holds iff `ExpiresAt` is strictly before `now`; a token expiring exactly at `now` is not expired |
| Entity.UserRoleToString | internal/domain/entity/token.go:27-29 | the string backing the role, from which the role is rebuilt; the inverse of `SetUserRoleFromString` |
| Entity.SetUserRoleFromString | internal/domain/entity/token.go:27-33 | reading the role string back gives the string set; UUID, issue and expiry times are unchanged |
| Entity.RoleStringRoundTrip | internal/domain/entity/token.go:27-33 | setting the role from its own string leaves the token unchanged |
| Entity.RoleIsOpen | internal/domain/entity/token.go:9-33 | a string other than "user" or "admin" is accepted and kept, so the role type is not closed |
| Entity.ExpiryIsStrict | internal/domain/entity/token.go:23-25 | a token is not expired at its own expiry instant, is expired just after it, and stays expired as time goes on |
| UserDto.ConvertToEntity | internal/domain/usecase/user/dto.go:12-17 | email and password are copied verbatim; the UUID is the nil UUID and the username empty |
| UserDto.ConvertToEntityKeepsRequest | internal/domain/usecase/user/dto.go:12-17 | the user is the zero user with email and password set, and the conversion is injective |
| PgxModel.ConvertFromEntity | internal/adapter/repository/pgx/model/user.go:17-23 | the row copies UUID, email and password, and takes its two timestamps from the two clock reads |
| PgxModel.ConvertToEntity | internal/adapter/repository/pgx/model/user.go:25-32 | the entity copies UUID, email and password, and its username is the email |
| PgxModel.EntityRowRoundTrip | internal/adapter/repository/pgx/model/user.go:17-32 | entity to row to entity keeps UUID, email and password and replaces the username by the email; it is the identity iff the username already was the email |
| PgxModel.UsernameDiscarded | internal/adapter/repository/pgx/model/user.go:9-23 | users differing only in username give the same row |
| PgxModel.TimestampsFromTwoReads | internal/adapter/repository/pgx/model/user.go:21-22 | `CreatedAt` equals `UpdatedAt` iff the two clock reads agree |
| PgxModel.RowEntityRoundTrip | internal/adapter/repository/pgx/model/user.go:17-32 | row to entity to row keeps UUID, email and password; the timestamps become the new clock reads |
| UserUsecase.Create | internal/domain/usecase/user/user.go:54-67 | the password is hashed first; the only store call is one create, made only when hashing succeeded, with the request's email, the hash as password and the nil UUID; a hashing failure and a store failure are wrapped; success iff both succeed |
| UserUsecase.CreateStoresNilUuid | internal/domain/usecase/user/dto.go:12-17 | every user `Create` hands to the store has the nil UUID |
| UserUsecase.Authenticate | internal/domain/usecase/user/user.go:69-85 | no store writes; the lookup comes first and its error is returned unchanged; a mismatch gives "invalid credentials"; a token is requested only after a successful compare, for the looked-up user, as the last call; a token error propagates; success iff all three steps succeed |
| UserUsecase.ValidateToken | internal/domain/usecase/user/user.go:87-94 | one call, to the token service's parse; its error is returned, with the zero token on failure and the parsed token on success; there is no clock and so no expiry check |
| UserUsecase.ValidateTokenIsParse | internal/domain/usecase/user/user.go:87-94 | wired to `tokenService`, validation is exactly `tokenService.Parse` |
| UserUsecase.IssuedTokensNeverValidate | internal/domain/usecase/user/user.go:79-94 | wired to `tokenService`, no token `Authenticate` returns ever passes `ValidateToken` |
| UserUsecase.CorrectedTokensValidate | internal/domain/usecase/user/user.go:79-94 | wired to the corrected codec, a token `Authenticate` returns validates to the looked-up user's UUID and the issued role, provided the library accepts its signature |
| UserUsecase.GetByID | internal/domain/usecase/user/user.go:96-103 | forwards the id unchanged and returns the store's error; on error the user is the zero user, whatever the store returned with it |
| UserUsecase.Update | internal/domain/usecase/user/user.go:105-112 | forwards id and field map unchanged; a store error is wrapped and unwraps to it |
| UserUsecase.Delete | internal/domain/usecase/user/user.go:114-121 | forwards the id unchanged; a store error is wrapped and unwraps to it |
| UserUsecase.FailuresDistinguishable | internal/domain/usecase/user/user.go:70-77 | a failed lookup returns the store's error unchanged and a wrong password returns "invalid credentials", so the two results differ for every lookup error other than "invalid credentials" itself |
| UserUsecase.AuthenticateUniform | internal/domain/usecase/user/user.go:69-85 | the corrected `Authenticate` gives "invalid credentials" for a failed lookup and for a mismatch, and otherwise behaves as the original |
| UserUsecase.UniformFailuresIndistinguishable | internal/domain/usecase/user/user.go:70-77 | with the corrected `Authenticate`, an unknown email and a wrong password give the same result |
| GoTime.UnixAddBounds | internal/domain/service/token.go:34-35 | `now.Add(d).Unix()` is at least `now.Unix()` plus `d`'s whole seconds and at most one more; it is exactly that if `d` is whole seconds |
| GoTime.TruncateToInt | internal/domain/service/token.go:74-81 | `int64(x)` of a float64 truncates toward zero |

## Findings

| source | as written | input that shows it | evidently intended | confidence | as-written member | corrected member |
|---|---|---|---|---|---|---|
| internal/domain/service/token.go:32-68 | `Create` builds only `sub`, `iat` and `exp`, but `Parse` rejects a token without a string `role` claim (the same holds in internal/domain/service/jwt.go:37-78) | any user, and any token `Create` returns | `Create` also emits the role claim, so issued tokens parse | not executed; high | TokenService.IssuedTokenFailsParse | TokenService.CreateWithRoleRoundTrip |
| internal/domain/usecase/user/user.go:70-77 | a failed lookup returns the store's error verbatim; a wrong password returns "invalid credentials" | a lookup that fails with any error other than "invalid credentials" (the Postgres repository's `FindByEmail`, for one, reports "user with email e not found", though the code that would connect it to the use case's `GetByEmail` is not shown) against a known email with a wrong password, which gives "invalid credentials" | both failures give the same error, so callers cannot probe which emails are registered | not executed; medium | UserUsecase.FailuresDistinguishable | UserUsecase.UniformFailuresIndistinguishable |

## Left out

- JWT serialisation, HMAC signing and signature verification (golang-jwt) are the abstract `Jwt.Library`. The library's own time-based claim validation is folded into its `verify` predicate, because that logic is not part of this code.
- bcrypt is the abstract `UserUsecase.Hasher`. Nothing is assumed about salting or cost.
- `uuid.Parse` and `UUID.String` are the abstract `Uuids.Codec`. Only `Uuids.Lawful` is assumed, and only where a lemma requires it.
- Float64 claims are exact reals. Rounding of large integers to float64, and `int64` conversion of out-of-range values, are not modelled.
- `time.Time.Add` saturation on overflow and Go's monotonic clock reading are not modelled. Instants are unbounded integers of nanoseconds.
- `context.Context` and cancellation are not modelled: the use case ignores them apart from handing them to the store.
- Logging is not modelled, and neither are the `userUsecase` fields `signingMethod`, `secret`, `expiration` and `log`, which no method reads.
- internal/adapter/repository/pgx/user.go is SQL building and Postgres I/O. The store is the abstract `UserUsecase.Service`, whose `getByEmail` may fail with any error. No type in the repository's code implements the use case's `GetByEmail`, so the Postgres not-found text is only an example of such an error.
- internal/domain/service/user.go is one-line delegation to the repository. It is not part of this model.
- internal/api/user.go and internal/api/dto/user.go are HTTP transport. They are not part of this model.
- internal/config/config.go is configuration file loading. It is not part of this model.
- internal/domain/entity/user.go holds no logic. It is transcribed as `Entity.User`.
- Constructors `NewTokenService`, `New` (jwt.go) and `New` (use case) only fill records. They are the datatype constructors.
- Registering and then authenticating with the same credentials is not shown to succeed, and the token's subject is not shown to be the new user's id. The store is abstract and stateless here, so nothing links what `Create` stores to what a later lookup returns. As written, the code could not deliver this anyway: `UserUsecase.IssuedTokensNeverValidate` shows no issued token validates.
- bcrypt's round trip, that comparing a password with its own hash succeeds and with another password fails, is not assumed or proved. `UserUsecase.Hasher` is kept free of assumptions, so `Authenticate`'s contracts hold for any hasher.
- TokenService.Create: its own contract states only the empty token on failure. What it signs is stated by `TokenService.CreateSigns`, and what its tokens do under `Parse` by `TokenService.IssuedTokenFailsParse`.
- Go strings are byte strings; the model uses `seq<char>`, which agrees for the ASCII `Bearer ` prefix.
