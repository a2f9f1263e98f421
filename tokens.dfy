/** What the core asks of the JWT utility. Signing, parsing and expiry belong to
    a foreign library and to the clock, so a verifier is given as a table from
    token text to the answer the utility would give at that moment. */
module Tokens {
  import opened Wrappers

  /** The claims read by `getIdFromToken`, `getTypeFromToken` and
      `getUsernameFromToken`; each may be absent (the getter returns null). */
  datatype Claims = Claims(id: Option<int>, kind: Option<string>, username: Option<string>)

  /** `validateToken` is false (`Invalid`); or it is true and the claims can be
      read (`Valid`); or it is true but reading a claim throws (`ClaimError`,
      e.g. a claim of the wrong JSON type), with the exception's message. */
  datatype TokenCheck = Invalid | Valid(claims: Claims) | ClaimError(message: string)

  /** Tokens absent from the map do not validate. */
  type Verifier = map<string, TokenCheck>

  function Check(v: Verifier, token: string): TokenCheck
  {
    if token in v then v[token] else Invalid
  }

  const UserKind: string := "USER"
  const AdminKind: string := "ADMIN"
}
