/** The authorisation schemes the client names (`Authorization` constants). */
module Authorization {
  /** Section 2 of RFC 7617. */
  const BASIC := "Basic"
  /** Section 2.1 of RFC 6750. */
  const BEARER := "Bearer"
}
