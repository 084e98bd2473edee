/**
 * HTTP status codes: the reason phrase of each code the client knows,
 * the codes it counts as valid, and the classes of section 6 of RFC 7231
 * (informational, success, redirection, client error, server error).
 */
module Status {
  import opened Wrappers

  /** The codes the client names with a constant. */
  predicate IsNamed(code: int) {
    match code
    case 100 | 101 | 102 | 103 | 200 | 201 | 202 | 203 | 204 | 205
       | 206 | 207 | 208 | 226 | 300 | 301 | 302 | 303 | 304 | 305
       | 307 | 308 | 400 | 401 | 402 | 403 | 404 | 405 | 406 | 407
       | 408 | 409 | 410 | 411 | 412 | 413 | 414 | 415 | 416 | 417
       | 418 | 421 | 422 | 423 | 424 | 425 | 426 | 428 | 429 | 431
       | 451 | 500 | 501 | 502 | 503 | 504 | 505 | 506 | 507 | 508
       | 510 | 511 => true
    case _ => false
  }

  /**
   * The reason-phrase table, kept as the source writes it: 412 carries
   * the phrase of 428 ("Precondition Required"), and 428 has no entry.
   */
  function Phrase(code: int): Option<string> {
    match code
    case 100 => Some("Continue")
    case 101 => Some("Switching Protocols")
    case 102 => Some("Processing")
    case 103 => Some("Early Hints")
    case 200 => Some("OK")
    case 201 => Some("Created")
    case 202 => Some("Accepted")
    case 203 => Some("Non-Authoritative Information")
    case 204 => Some("No Content")
    case 205 => Some("Reset Content")
    case 206 => Some("Partial Content")
    case 207 => Some("Multi-Status")
    case 208 => Some("Already Reported")
    case 226 => Some("IM Used")
    case 300 => Some("Multiple Choices")
    case 301 => Some("Moved Permanently")
    case 302 => Some("Found")
    case 303 => Some("See Other")
    case 304 => Some("Not Modified")
    case 305 => Some("Use Proxy")
    case 307 => Some("Temporary Redirect")
    case 308 => Some("Permanent Redirect")
    case 400 => Some("Bad Request")
    case 401 => Some("Unauthorized")
    case 402 => Some("Payment Required")
    case 403 => Some("Forbidden")
    case 404 => Some("Not Found")
    case 405 => Some("Method Not Allowed")
    case 406 => Some("Not Acceptable")
    case 407 => Some("Proxy Authentication Required")
    case 408 => Some("Request Timeout")
    case 409 => Some("Conflict")
    case 410 => Some("Gone")
    case 411 => Some("Length Required")
    case 413 => Some("Payload Too Large")
    case 414 => Some("URI Too Long")
    case 415 => Some("Unsupported Media Type")
    case 416 => Some("Range Not Satisfiable")
    case 417 => Some("Expectation Failed")
    case 418 => Some("I'm a teapot")
    case 421 => Some("Misdirected Request")
    case 422 => Some("Unprocessable Entity")
    case 423 => Some("Locked")
    case 424 => Some("Failed Dependency")
    case 425 => Some("Too Early")
    case 426 => Some("Upgrade Required")
    case 412 => Some("Precondition Required")
    case 429 => Some("Too Many Requests")
    case 431 => Some("Request Header Fields Too Large")
    case 451 => Some("Unavailable For Legal Reasons")
    case 500 => Some("Internal Server Error")
    case 501 => Some("Not Implemented")
    case 502 => Some("Bad Gateway")
    case 503 => Some("Service Unavailable")
    case 504 => Some("Gateway Timeout")
    case 505 => Some("HTTP Version Not Supported")
    case 506 => Some("Variant Also Negotiates")
    case 507 => Some("Insufficient Storage")
    case 508 => Some("Loop Detected")
    case 510 => Some("Not Extended")
    case 511 => Some("Network Authentication Required")
    case _ => None
  }


  /** `getMessage`: the reason phrase of a code, `None` (null) for a code the table lacks. */
  function GetMessage(code: int): (r: Option<string>)
    ensures r.Some? <==> IsNamed(code) && code != 428
    ensures r.Some? ==> |r.value| > 0
  {
    Phrase(code)
  }

  /**
   * `getErrorCodes`: the source writes this table out a second time; its
   * entries are exactly the error entries of the reason-phrase table.
   */
  function GetErrorCodes(): (r: map<int, string>)
    ensures forall c :: c in r <==> GetMessage(c).Some? && IsError(c)
    ensures forall c :: c in r ==> Some(r[c]) == GetMessage(c)
  {
    map c | 400 <= c < 600 && IsNamed(c) && c != 428 :: GetMessage(c).value
  }

  /** `isValid`, the disjunction over ranges the source spells out (its last range twice). */
  predicate IsValid(code: int) {
    (code > 99 && code < 104) ||
    (code > 199 && code < 209) ||
    code == 226 ||
    (code > 299 && code < 309) ||
    (code > 399 && code < 418) ||
    (code > 420 && code < 432) ||
    code == 451 ||
    (code > 499 && code < 512) ||
    (code > 499 && code < 512)
  }

  predicate IsInformational(code: int) {
    code > 99 && code < 200
  }

  predicate IsSuccess(code: int) {
    code > 199 && code < 300
  }

  predicate IsRedirection(code: int) {
    code > 299 && code < 400
  }

  predicate IsError(code: int) {
    code > 399 && code < 600
  }

  predicate IsClientError(code: int) {
    code > 399 && code < 500
  }

  predicate IsServerError(code: int) {
    code > 499 && code < 600
  }

  /** Every code from 100 to 599 falls in exactly one class; no other code falls in any. */
  lemma ClassesPartition(code: int)
    ensures IsError(code) <==> IsClientError(code) || IsServerError(code)
    ensures 100 <= code < 600 <==>
      IsInformational(code) || IsSuccess(code) || IsRedirection(code) || IsClientError(code) || IsServerError(code)
    ensures !(IsInformational(code) && IsSuccess(code)) && !(IsSuccess(code) && IsRedirection(code)) &&
            !(IsRedirection(code) && IsError(code)) && !(IsClientError(code) && IsServerError(code)) &&
            !(IsInformational(code) && IsError(code))
  {
  }

  /**
   * A code with a phrase is valid except 418; the valid codes without a
   * phrase are exactly 306, 427, 428, 430 and 509.
   */
  lemma ValidAgainstMessages(code: int)
    ensures GetMessage(code).Some? ==> IsValid(code) || code == 418
    ensures IsValid(code) && GetMessage(code).None? <==> code in {306, 427, 428, 430, 509}
    ensures IsValid(code) ==> 100 <= code < 512
  {
  }

  /**
   * The table gives 412 the phrase of 428 and leaves 428, although named,
   * without one; getErrorCodes repeats both.
   */
  lemma PreconditionPhrases()
    ensures GetMessage(412) == Some("Precondition Required")
    ensures GetMessage(428) == None
    ensures IsNamed(428) && IsValid(428)
    ensures 428 !in GetErrorCodes() && 412 in GetErrorCodes()
    ensures GetErrorCodes()[412] == "Precondition Required"
  {
  }
}
