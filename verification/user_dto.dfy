/** `CreateDTO`, the registration request the use case receives. */
module UserDto {
  import opened Uuids
  import opened Entity

  datatype CreateDTO = CreateDTO(email: string, password: string)

  /** `u.ConvertToEntity()`: email and password are copied; the UUID is the
      nil UUID and the username is empty. */
  function ConvertToEntity(dto: CreateDTO): (u: User)
    ensures u.email == dto.email && u.password == dto.password
    ensures u.uuid == Nil && u.username == ""
  {
    User(Nil, "", dto.email, dto.password)
  }

  /** The conversion keeps everything the request holds: different requests
      give different users, and the user is the zero user with the two
      fields set. */
  lemma ConvertToEntityKeepsRequest(a: CreateDTO, b: CreateDTO)
    ensures ConvertToEntity(a) == ZeroUser.(email := a.email, password := a.password)
    ensures ConvertToEntity(a) == ConvertToEntity(b) <==> a == b
  {
  }
}
