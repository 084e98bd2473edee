/** The request method names the client uses, and which of them carry no body. */
module HttpMethod {
  const DELETE := "DELETE"
  const GET := "GET"
  const HEAD := "HEAD"
  const OPTIONS := "OPTIONS"
  const PATCH := "PATCH"
  const POST := "POST"
  const PUT := "PUT"

  /** `mayNotIncludeBody`: a strict, case-sensitive test for GET and HEAD. */
  predicate MayNotIncludeBody(m: string) {
    m in [GET, HEAD]
  }

  /** Only the exact names GET and HEAD forbid a body; lower-case spellings do not. */
  lemma BodylessMethods(m: string)
    ensures MayNotIncludeBody(m) <==> m == "GET" || m == "HEAD"
    ensures !MayNotIncludeBody("get") && !MayNotIncludeBody(POST) && !MayNotIncludeBody(DELETE)
  {
  }
}
