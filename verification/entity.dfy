/** The domain entities: the user record and the access token with its
    string-backed role. */
module Entity {
  import opened GoTime
  import opened Uuids

  /** `entity.User` */
  datatype User = User(uuid: Uuid, username: string, email: string, password: string)

  /** `entity.User{}` */
  const ZeroUser: User := User(Nil, "", "", "")

  /** `userRole`: a named string type, so any string converts to it. */
  datatype UserRole = UserRole(name: string)

  const RoleUser: UserRole := UserRole("user")
  const RoleAdmin: UserRole := UserRole("admin")

  /** `entity.AccessToken` */
  datatype AccessToken = AccessToken(userUuid: Uuid, issuedAt: Instant, expiresAt: Instant, userRole: UserRole)

  /** `entity.AccessToken{}` */
  const ZeroAccessToken: AccessToken := AccessToken(Nil, ZeroTime, ZeroTime, UserRole(""))

  /** `at.Expired()`, with the clock read passed in as `now`: the expiry
      instant lies strictly before `now`, so a token expiring exactly at
      `now` is still valid. */
  function Expired(at: AccessToken, now: Instant): (r: bool)
    ensures r <==> at.expiresAt < now
    ensures at.expiresAt == now ==> !r
  {
    Before(at.expiresAt, now)
  }

  /** `at.UserRoleToString()`: the string the role is backed by, from
      which the role is rebuilt. */
  function UserRoleToString(at: AccessToken): (s: string)
    ensures UserRole(s) == at.userRole
  {
    at.userRole.name
  }

  /** `at.SetUserRoleFromString(role)`: Go updates the receiver in place; here
      the updated token is returned. */
  function SetUserRoleFromString(at: AccessToken, role: string): (r: AccessToken)
    ensures UserRoleToString(r) == role
    ensures r.userUuid == at.userUuid && r.issuedAt == at.issuedAt && r.expiresAt == at.expiresAt
  {
    at.(userRole := UserRole(role))
  }

  /** Role to string and back is the identity, so the conversions are
      inverse in both directions. */
  lemma RoleStringRoundTrip(at: AccessToken)
    ensures SetUserRoleFromString(at, UserRoleToString(at)) == at
  {
  }

  /** The role type is not closed: any string is accepted and kept, also
      one that is neither "user" nor "admin". */
  lemma RoleIsOpen(at: AccessToken, role: string)
    requires role != "user" && role != "admin"
    ensures SetUserRoleFromString(at, role).userRole != RoleUser
    ensures SetUserRoleFromString(at, role).userRole != RoleAdmin
    ensures UserRoleToString(SetUserRoleFromString(at, role)) == role
  {
  }

  /** A token is not yet expired at its own expiry instant, is expired one
      nanosecond later, and stays expired as time goes on. */
  lemma ExpiryIsStrict(at: AccessToken, now: Instant, later: Instant)
    ensures !Expired(at, at.expiresAt)
    ensures Expired(at, at.expiresAt + 1)
    ensures Expired(at, now) && now <= later ==> Expired(at, later)
    ensures !Expired(at, later) && now <= later ==> !Expired(at, now)
  {
  }
}
