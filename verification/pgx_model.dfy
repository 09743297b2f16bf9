/** The database row of the Postgres repository and its conversions to and
    from the domain user. */
module PgxModel {
  import opened GoTime
  import opened Uuids
  import opened Entity

  /** `model.User`: there is no username column. */
  datatype Row = Row(uuid: Uuid, email: string, password: string, createdAt: Instant, updatedAt: Instant)

  /** `u.ConvertFromEntity(user)`; the two `time.Now()` reads are
      `createdAt` and `updatedAt`. */
  function ConvertFromEntity(user: User, createdAt: Instant, updatedAt: Instant): (r: Row)
    ensures r.uuid == user.uuid && r.email == user.email && r.password == user.password
    ensures r.createdAt == createdAt && r.updatedAt == updatedAt
  {
    Row(user.uuid, user.email, user.password, createdAt, updatedAt)
  }

  /** `u.ConvertToEntity()`: the email doubles as the username. */
  function ConvertToEntity(row: Row): (u: User)
    ensures u.uuid == row.uuid && u.email == row.email && u.password == row.password
    ensures u.username == row.email
  {
    User(row.uuid, row.email, row.email, row.password)
  }

  /** Entity to row to entity keeps id, email and password, and replaces
      the username by the email. */
  lemma EntityRowRoundTrip(user: User, createdAt: Instant, updatedAt: Instant)
    ensures ConvertToEntity(ConvertFromEntity(user, createdAt, updatedAt)) == user.(username := user.email)
    ensures ConvertToEntity(ConvertFromEntity(user, createdAt, updatedAt)) == user <==> user.username == user.email
  {
  }

  /** The username does not reach the row: users that differ only in it
      give the same row. */
  lemma UsernameDiscarded(user: User, username: string, createdAt: Instant, updatedAt: Instant)
    ensures ConvertFromEntity(user.(username := username), createdAt, updatedAt) == ConvertFromEntity(user, createdAt, updatedAt)
  {
  }

  /** The two timestamps come from two clock reads and are equal only when
      the reads are. */
  lemma TimestampsFromTwoReads(user: User, createdAt: Instant, updatedAt: Instant)
    ensures var r := ConvertFromEntity(user, createdAt, updatedAt); r.createdAt == r.updatedAt <==> createdAt == updatedAt
  {
  }

  /** Row to entity to row keeps id, email and password; the timestamps are
      those of the new clock reads. */
  lemma RowEntityRoundTrip(row: Row, createdAt: Instant, updatedAt: Instant)
    ensures ConvertFromEntity(ConvertToEntity(row), createdAt, updatedAt) == row.(createdAt := createdAt, updatedAt := updatedAt)
  {
  }
}
