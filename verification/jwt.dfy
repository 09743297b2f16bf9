/** The golang-jwt library as the token code sees it. Serialisation, HMAC
    signing and signature checking are the library's; they are a record of
    functions supplied by the caller. */
module Jwt {
  import opened Wrappers
  import opened Errors
  import opened Dynamic
  import opened GoTime

  type MapClaims = map<string, Any>

  /** `jwt.SigningMethod`, of which the code reads only `Alg()`. */
  datatype SigningMethod = SigningMethod(alg: string)

  /** A token split and decoded but not yet verified: the header `alg`
      (already known to be a string naming a registered method) and the
      claims decoded from JSON. */
  datatype Unverified = Unverified(alg: string, claims: MapClaims)

  /** `signedString` is `jwt.NewWithClaims(method, claims).SignedString(key)`
      taking the method's alg; `parseUnverified` is the structural decode;
      `verify` is the signature check under a key together with whatever
      time-based claim validation the library does at the given instant. */
  datatype Library = Library(
    signedString: (string, MapClaims, string) -> Ret<string>,
    parseUnverified: string -> Option<Unverified>,
    verify: (string, string, Instant) -> bool)

  /** The one assumption made of the library: a token it signs decodes to
      the signing alg and to the claims as they come back through JSON. */
  ghost predicate Coherent(lib: Library) {
    forall alg: string, claims: MapClaims, key: string {:trigger lib.signedString(alg, claims, key)} ::
      lib.signedString(alg, claims, key).Ok() ==>
        lib.parseUnverified(lib.signedString(alg, claims, key).value) == Some(Unverified(alg, ThroughJson(claims)))
  }

  /** `jwt.ParseWithClaims(token, claims, keyFunc)` at instant `now`; the
      key function sees the header alg and either gives a key or fails.
      All failures are one failure to the caller, who discards the error. */
  function ParseWithClaims(lib: Library, token: string, keyFunc: string -> Option<string>, now: Instant): (r: Option<MapClaims>)
    ensures r.Some? ==> lib.parseUnverified(token).Some? && r.value == lib.parseUnverified(token).value.claims
    ensures r.Some? ==> keyFunc(lib.parseUnverified(token).value.alg).Some?
  {
    match lib.parseUnverified(token)
    case None => None
    case Some(u) =>
      match keyFunc(u.alg)
      case None => None
      case Some(key) => if lib.verify(token, key, now) then Some(u.claims) else None
  }
}
