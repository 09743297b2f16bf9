/** `uuid.UUID` from google/uuid: sixteen bytes. Its text form and parser
    belong to the library, so they are a codec supplied by the caller. */
module Uuids {
  import opened Wrappers

  newtype byte = x: int | 0 <= x < 256

  type Uuid = s: seq<byte> | |s| == 16 witness [0, 0, 0, 0, 0, 0, 0, 0, 0, 0, 0, 0, 0, 0, 0, 0]

  /** `uuid.Nil`, the zero value of `uuid.UUID`. */
  const Nil: Uuid := [0, 0, 0, 0, 0, 0, 0, 0, 0, 0, 0, 0, 0, 0, 0, 0]

  /** `UUID.String` and `uuid.Parse`. */
  datatype Codec = Codec(format: Uuid -> string, parse: string -> Option<Uuid>)

  /** The one assumption made of the library: parsing a UUID's string form
      gives the UUID back. */
  ghost predicate Lawful(c: Codec) {
    forall u: Uuid {:trigger c.format(u)} :: c.parse(c.format(u)) == Some(u)
  }

}
