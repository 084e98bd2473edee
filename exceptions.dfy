/**
 * The exceptions the client throws, with the message, code, previous
 * exception and request or response each one carries.  Constructors stand
 * for the exception classes; their defaults are the PHP constructors'
 * defaults.
 */
module Exceptions {
  import opened Wrappers
  import opened PhpStrings
  import opened Messages

  datatype Exception =
    | ResponseError(request: Request, response: Response)
    | DriverError(request: Request, detail: string := "", code: int := 0, previous: Option<Exception> := None)
    | UnresolvableHost(request: Request, previous: Option<Exception> := None)
    | ConnectionError(request: Request, detail: string := "", code: int := 0, previous: Option<Exception> := None)
    | SslCertificateError(request: Request, detail: string := "", code: int := 0, previous: Option<Exception> := None)
    /** `ClientException`, raised for curl errors the driver does not recognise. */
    | ClientError(message: string, code: int)
    | InvalidArgument(message: string)
    | RangeError(message: string)
    | TypeError(message: string)
    /** An exception raised by code outside this model (a JSON extension, a user serialiser). */
    | Thrown(className: string, message: string)
  {
    /** `UnresolvableHostException` is a `DriverException`. */
    predicate IsDriverException() {
      DriverError? || UnresolvableHost?
    }

    /** `getMessage`. */
    function Message(): string {
      match this
      case ResponseError(_, response) => "Request failed with status " + IntToString(response.statusCode)
      case DriverError(_, detail, _, _) => "Failed to create request: " + detail
      case UnresolvableHost(request, _) => "Failed to create request: " + HostNotResolved(request.uri.host)
      case ConnectionError(_, detail, _, _) => "Unable to connect to remote server: " + detail
      case SslCertificateError(_, detail, _, _) => "Failed to establish secure connection: " + detail
      case ClientError(message, _) => message
      case InvalidArgument(message) => message
      case RangeError(message) => message
      case TypeError(message) => message
      case Thrown(_, message) => message
    }

    /** `getCode`. */
    function Code(): int {
      match this
      case ResponseError(_, response) => response.statusCode
      case DriverError(_, _, code, _) => code
      case UnresolvableHost(_, _) => 0
      case ConnectionError(_, _, code, _) => code
      case SslCertificateError(_, _, code, _) => code
      case ClientError(_, code) => code
      case _ => 0
    }

    /** `getPrevious`. */
    function Previous(): Option<Exception> {
      match this
      case DriverError(_, _, _, previous) => previous
      case UnresolvableHost(_, previous) => previous
      case ConnectionError(_, _, _, previous) => previous
      case SslCertificateError(_, _, _, previous) => previous
      case _ => None
    }

    /** Whether the exception class offers `getRequest`. */
    predicate HasRequest() {
      ResponseError? || DriverError? || UnresolvableHost? || ConnectionError? || SslCertificateError?
    }

    /** `getRequest`. */
    function GetRequest(): Request
      requires HasRequest()
    {
      request
    }
  }

  /**
   * A response error hands back the request and response it was made with,
   * its code is the status code and its message names the status.
   */
  lemma ResponseErrorCarries(request: Request, response: Response)
    ensures var e := ResponseError(request, response);
      e.GetRequest() == request && e.response == response &&
      e.Code() == response.statusCode &&
      e.Message() == "Request failed with status " + IntToString(response.statusCode)
  {
  }

  /** The detail `UnresolvableHostException` hands to its parent. */
  function HostNotResolved(host: string): string {
    "Could not resolve host '" + host + "'"
  }

  /**
   * An unresolvable host is a driver exception whose detail names the host
   * of the request, with code 0 and the given previous exception.
   */
  lemma UnresolvableHostIsDriverError(request: Request, previous: Option<Exception>)
    ensures var e := UnresolvableHost(request, previous);
      var d := DriverError(request, HostNotResolved(request.uri.host), 0, previous);
      e.IsDriverException() && e.Message() == d.Message() && e.Code() == d.Code() &&
      e.Previous() == d.Previous() && e.GetRequest() == d.GetRequest()
  {
  }

  /** The driver, connection and certificate exceptions put a fixed prefix before the detail. */
  lemma DetailFollowsPrefix(request: Request, detail: string, code: int, previous: Option<Exception>)
    ensures DriverError(request, detail, code, previous).Message() == "Failed to create request: " + detail
    ensures ConnectionError(request, detail, code, previous).Message() == "Unable to connect to remote server: " + detail
    ensures SslCertificateError(request, detail, code, previous).Message() == "Failed to establish secure connection: " + detail
    ensures DriverError(request).Message() == "Failed to create request: " && DriverError(request).Code() == 0
  {
  }
}
