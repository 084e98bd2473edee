/**
 * The decisions the curl driver takes around its call into libcurl: the
 * options it sets for a request, the response headers it collects line by
 * line, and the exception it maps a curl error code to.
 */
module CurlDriver {
  import opened Wrappers
  import opened PhpStrings
  import opened MessageHeaders
  import opened Messages
  import opened Exceptions
  import opened Status
  import opened HttpMethod
  import opened Drivers
  import PhpArrays

  /**
   * libcurl's error codes, as the `CURLE_*` constants define them from
   * libcurl 7.62.0 on, the values this model assumes.
   */
  const CURLE_OK := 0
  const CURLE_FAILED_INIT := 2
  const CURLE_COULDNT_RESOLVE_HOST := 6
  const CURLE_COULDNT_CONNECT := 7
  const CURLE_READ_ERROR := 26
  const CURLE_SSL_CONNECT_ERROR := 35
  const CURLE_TOO_MANY_REDIRECTS := 47
  const CURLE_GOT_NOTHING := 52
  const CURLE_SSL_ENGINE_NOTFOUND := 53
  const CURLE_SSL_ENGINE_SETFAILED := 54
  const CURLE_RECV_ERROR := 56
  const CURLE_SSL_CERTPROBLEM := 58
  const CURLE_SSL_CIPHER := 59
  /**
   * `CURLE_SSL_CACERT` and `CURLE_SSL_PEER_CERTIFICATE` are both legacy
   * names of `CURLE_PEER_FAILED_VERIFICATION`, 60 from libcurl 7.62.0 on;
   * older libcurl gives `CURLE_SSL_PEER_CERTIFICATE` the value 51.
   */
  const CURLE_SSL_CACERT := 60
  const CURLE_SSL_PEER_CERTIFICATE := 60
  const CURLE_SSL_CACERT_BADFILE := 77
  const CURLE_SSL_PINNEDPUBKEYNOTMATCH := 90

  /** The codes of the connection group: no HTTP response was received. */
  predicate IsConnectionFailure(code: int) {
    code == CURLE_COULDNT_CONNECT || code == CURLE_TOO_MANY_REDIRECTS || code == CURLE_GOT_NOTHING ||
    code == CURLE_FAILED_INIT || code == CURLE_READ_ERROR || code == CURLE_RECV_ERROR
  }

  /** The codes of the certificate group. */
  predicate IsCertificateFailure(code: int) {
    code == CURLE_SSL_CONNECT_ERROR || code == CURLE_SSL_CACERT || code == CURLE_SSL_CACERT_BADFILE ||
    code == CURLE_SSL_CERTPROBLEM || code == CURLE_SSL_CIPHER || code == CURLE_SSL_ENGINE_NOTFOUND ||
    code == CURLE_SSL_ENGINE_SETFAILED || code == CURLE_SSL_PINNEDPUBKEYNOTMATCH || code == CURLE_SSL_PEER_CERTIFICATE
  }

  /** `curl_error($handle) ?: 'none'`. */
  function ErrorMessage(curlError: string): (r: string)
    ensures !IsFalsy(r)
    ensures !IsFalsy(curlError) ==> r == curlError
    ensures IsFalsy(curlError) ==> r == "none"
  {
    if IsFalsy(curlError) then "none" else curlError
  }

  /** The message of the generic `ClientException`. */
  function UnknownErrorMessage(code: int, message: string): string {
    "Request failed: Unknown curl error " + IntToString(code) + ": " + message
  }

  /**
   * What PHP raises when `UnresolvableHostException` is handed a URI where
   * it declares a request.  PHP 8 appends ", called in <file> on line 272"
   * to this text; that suffix depends on the installation and is left out.
   */
  const URI_FOR_REQUEST_ERROR :=
    "Radiergummi\\Wander\\Exceptions\\UnresolvableHostException::__construct(): Argument #1 ($request) must be of type Psr\\Http\\Message\\RequestInterface, Nyholm\\Psr7\\Uri given"

  /** The error switch, corrected: an unresolvable host raises `UnresolvableHostException` for the request. */
  function Classify(request: Request, code: int, message: string): (r: Outcome<Exception>)
    ensures r.Pass? <==> code == CURLE_OK
    ensures r.Fail? && r.error.UnresolvableHost? <==> code == CURLE_COULDNT_RESOLVE_HOST
    ensures r.Fail? && r.error.ConnectionError? <==> IsConnectionFailure(code)
    ensures r.Fail? && r.error.SslCertificateError? <==> IsCertificateFailure(code)
    ensures r.Fail? && r.error.ClientError? <==>
              code != CURLE_OK && code != CURLE_COULDNT_RESOLVE_HOST && !IsConnectionFailure(code) && !IsCertificateFailure(code)
    ensures r.Fail? ==> r.error.Code() == (if code == CURLE_COULDNT_RESOLVE_HOST then 0 else code)
    ensures r.Fail? && r.error.HasRequest() ==> r.error.GetRequest() == request
  {
    if code == CURLE_OK then Pass
    else if code == CURLE_COULDNT_RESOLVE_HOST then Fail(UnresolvableHost(request))
    else if IsConnectionFailure(code) then Fail(ConnectionError(request, message, code))
    else if IsCertificateFailure(code) then Fail(SslCertificateError(request, message, code))
    else Fail(ClientError(UnknownErrorMessage(code, message), code))
  }

  /** The error switch as written: the unresolvable-host case passes `$request->getUri()`. */
  function ClassifyAsWritten(request: Request, code: int, message: string): Outcome<Exception> {
    if code == CURLE_COULDNT_RESOLVE_HOST then Fail(TypeError(URI_FOR_REQUEST_ERROR))
    else Classify(request, code, message)
  }

  /**
   * As written, a host that does not resolve raises a `TypeError` rather
   * than the driver exception the switch names; all other codes agree.
   */
  lemma ClassifyAsWrittenFailsOnUnresolvedHost(request: Request, message: string)
    ensures ClassifyAsWritten(request, CURLE_COULDNT_RESOLVE_HOST, message).Fail?
    ensures !ClassifyAsWritten(request, CURLE_COULDNT_RESOLVE_HOST, message).error.IsDriverException()
    ensures Classify(request, CURLE_COULDNT_RESOLVE_HOST, message).error.IsDriverException()
    ensures forall code :: code != CURLE_COULDNT_RESOLVE_HOST ==> ClassifyAsWritten(request, code, message) == Classify(request, code, message)
  {
  }

  /** The message each exception carries: the curl text behind the group's prefix, or the generic text. */
  lemma ClassifyMessages(request: Request, code: int, message: string)
    requires code != CURLE_OK
    ensures IsConnectionFailure(code) ==>
              Classify(request, code, message).error.Message() == "Unable to connect to remote server: " + message
    ensures IsCertificateFailure(code) ==>
              Classify(request, code, message).error.Message() == "Failed to establish secure connection: " + message
    ensures code == CURLE_COULDNT_RESOLVE_HOST ==>
              Classify(request, code, message).error.Message() == "Failed to create request: " + HostNotResolved(request.uri.host)
    ensures Classify(request, code, message).error.ClientError? ==>
              Classify(request, code, message).error.Message() == UnknownErrorMessage(code, message)
  {
    if IsConnectionFailure(code) || IsCertificateFailure(code) {
      DetailFollowsPrefix(request, message, code, None);
    }
  }

  /** Nine certificate names stand for eight codes. */
  lemma CertificateCodes()
    ensures (set c | 0 <= c < 100 && IsCertificateFailure(c)) == {35, 53, 54, 58, 59, 60, 77, 90}
  {
  }

  /** `CURLOPT_POST`, `CURLOPT_CUSTOMREQUEST`, or neither: how the method switch tells curl the method. */
  datatype MethodOption = NoMethodOption | PostFlag | CustomRequest(name: string)

  /** The curl options the driver sets; `infileSize` stands for `CURLOPT_INFILE` and `CURLOPT_INFILESIZE`. */
  datatype CurlOptions = CurlOptions(
    http200Aliases: map<int, string>,
    failOnError: bool,
    infileSize: Option<nat>,
    upload: bool,
    methodOption: MethodOption,
    httpHeader: seq<string>,
    returnTransfer: bool)

  /**
   * The request method libcurl uses: a custom request wins; otherwise the
   * last of `CURLOPT_UPLOAD` (PUT) and `CURLOPT_POST` set, and the options
   * set `CURLOPT_POST` after `CURLOPT_UPLOAD`; GET when neither is set.
   */
  function EffectiveMethod(o: CurlOptions): string {
    match o.methodOption
    case CustomRequest(name) => name
    case PostFlag => POST
    case NoMethodOption => if o.upload then PUT else GET
  }

  /** The method switch as written: GET sets nothing, POST the flag, every other method a custom request. */
  function MethodOptionAsWritten(m: string): (r: MethodOption)
    ensures r == NoMethodOption <==> m == GET
    ensures r == PostFlag <==> m == POST
    ensures r.CustomRequest? ==> r.name == m
  {
    if m == GET then NoMethodOption else if m == POST then PostFlag else CustomRequest(m)
  }

  /**
   * The method switch corrected: a GET that uploads a body names itself,
   * since `CURLOPT_UPLOAD` would make it a PUT.
   */
  function MethodOptionFor(m: string, uploading: bool): (r: MethodOption)
    ensures r == PostFlag <==> m == POST
    ensures !uploading ==> r == MethodOptionAsWritten(m)
  {
    if m == GET && uploading then CustomRequest(GET) else MethodOptionAsWritten(m)
  }

  /** With the corrected switch, libcurl uses the given method whether or not a body is uploaded. */
  lemma MethodOptionForIsEffective(o: CurlOptions, m: string)
    requires o.methodOption == MethodOptionFor(m, o.upload)
    ensures EffectiveMethod(o) == m
  {
    if m == GET && o.upload {
      assert o.methodOption == CustomRequest(GET);
    } else if m == GET {
      assert o.methodOption == NoMethodOption;
    } else if m == POST {
      assert o.methodOption == PostFlag;
    } else {
      assert o.methodOption == CustomRequest(m);
    }
  }

  /** The headers the driver sends: with a body, a missing Content-Length becomes the body size. */
  function CurlHeaders(request: Request): (r: Headers)
    ensures request.body.Size() > 0 ==> Has(r, CONTENT_LENGTH)
    ensures forall n {:trigger Get(r, n)} :: !SameName(n, CONTENT_LENGTH) ==> Get(r, n) == Get(request.headers, n)
    ensures Has(request.headers, CONTENT_LENGTH) || request.body.Size() == 0 ==> r == request.headers
    ensures WellFormed(request.headers) ==> WellFormed(r)
  {
    if request.body.Size() > 0 then WithDefault(request.headers, CONTENT_LENGTH, NatToString(request.body.Size()))
    else request.headers
  }

  /**
   * The options and the request as the source builds them: the fixed
   * entries, then the upload of a non-empty body, then the method switch,
   * then the header lines.
   */
  method PrepareOptionsAsWritten(request: Request) returns (options: CurlOptions, sent: Request)
    ensures sent == request.(headers := CurlHeaders(request))
    ensures options.http200Aliases == GetErrorCodes() && !options.failOnError && !options.returnTransfer
    ensures options.upload <==> request.body.Size() > 0
    ensures options.infileSize == (if request.body.Size() > 0 then Some(request.body.Size()) else None)
    ensures options.methodOption == MethodOptionAsWritten(request.httpMethod)
    ensures options.httpHeader == HeaderLines(sent.headers)
    ensures request.httpMethod == GET && request.body.Size() > 0 ==> EffectiveMethod(options) == PUT
  {
    sent := request;
    options := CurlOptions(GetErrorCodes(), false, None, false, NoMethodOption, [], false);
    var bodyLength := sent.body.Size();
    if bodyLength > 0 {
      options := options.(infileSize := Some(bodyLength), upload := true);
      sent := sent.(headers := WithDefault(sent.headers, CONTENT_LENGTH, NatToString(bodyLength)));
    }
    options := options.(methodOption := MethodOptionAsWritten(sent.httpMethod));
    var lines := MarshalHeaders(sent.headers);
    options := options.(httpHeader := lines, returnTransfer := false);
  }

  /**
   * The options for a request, with the corrected method switch: curl then
   * uses exactly the request's method.
   */
  function OptionsFor(request: Request): (o: CurlOptions)
    ensures o.http200Aliases == GetErrorCodes() && !o.failOnError && !o.returnTransfer
    ensures o.upload <==> request.body.Size() > 0
    ensures o.infileSize == (if request.body.Size() > 0 then Some(request.body.Size()) else None)
    ensures o.methodOption == MethodOptionFor(request.httpMethod, request.body.Size() > 0)
    ensures o.httpHeader == HeaderLines(CurlHeaders(request))
    ensures EffectiveMethod(o) == request.httpMethod
  {
    var size := request.body.Size();
    var o := CurlOptions(GetErrorCodes(), false, if size > 0 then Some(size) else None, size > 0,
                         MethodOptionFor(request.httpMethod, size > 0), HeaderLines(CurlHeaders(request)), false);
    MethodOptionForIsEffective(o, request.httpMethod);
    o
  }

  /**
   * The options and the request the driver sends, built as the source
   * builds them but with the corrected method switch.
   */
  method PrepareOptions(request: Request) returns (options: CurlOptions, sent: Request)
    ensures sent == request.(headers := CurlHeaders(request))
    ensures options == OptionsFor(request)
  {
    sent := request;
    options := CurlOptions(GetErrorCodes(), false, None, false, NoMethodOption, [], false);
    var bodyLength := sent.body.Size();
    if bodyLength > 0 {
      options := options.(infileSize := Some(bodyLength), upload := true);
      sent := sent.(headers := WithDefault(sent.headers, CONTENT_LENGTH, NatToString(bodyLength)));
    }
    options := options.(methodOption := MethodOptionFor(sent.httpMethod, options.upload));
    var lines := MarshalHeaders(sent.headers);
    options := options.(httpHeader := lines, returnTransfer := false);
  }

  /** The headers collected so far: lower-cased names, in first-seen order, each with its values in arrival order. */
  type Collected = seq<(string, seq<string>)>

  /** `explode(':', $header, 2)` with two parts: the lower-cased trimmed name and the trimmed value. */
  function LineField(line: string): (r: Option<(string, string)>)
    ensures r.None? <==> ':' !in line
    ensures r.Some? ==> ToLower(r.value.0) == r.value.0 && IsTrimmed(r.value.1)
  {
    var (before, after) := SplitFirst(line, ':');
    if after.None? then None
    else
      ToLowerIdempotent(Trim(before));
      Some((ToLower(Trim(before)), Trim(after.value)))
  }

  /** The name is cut at the first ':' only: the value keeps every later one. */
  lemma LineFieldKeepsLaterColons(name: string, value: string)
    requires ':' !in name
    ensures LineField(name + ":" + value) == Some((ToLower(Trim(name)), Trim(value)))
  {
    assert name + ":" + value == name + [':'] + value;
    SplitFirstAt(name, ':', value);
  }

  /** One call of the header callback: a line with a ':' appends its value under its name. */
  function CollectLine(c: Collected, line: string): Collected {
    match LineField(line)
    case None => c
    case Some((name, value)) => PhpArrays.Assign(c, name, PhpArrays.Get(c, name).GetOr([]) + [value])
  }

  /** The header callback applied to every line, in order. */
  function Collect(lines: seq<string>): Collected
    decreases |lines|
  {
    if lines == [] then [] else CollectLine(Collect(lines[..|lines| - 1]), lines[|lines| - 1])
  }

  /** Reference definition: the values, in arrival order, of the lines whose name lower-cases to `name`. */
  function ValuesFor(lines: seq<string>, name: string): seq<string>
    decreases |lines|
  {
    if lines == [] then []
    else
      var last := LineField(lines[|lines| - 1]);
      ValuesFor(lines[..|lines| - 1], name) + if last.Some? && last.value.0 == name then [last.value.1] else []
  }

  /** The collected values of a name are exactly the values of its lines, in arrival order. */
  lemma {:induction false} CollectValues(lines: seq<string>, name: string)
    ensures PhpArrays.Get(Collect(lines), name).GetOr([]) == ValuesFor(lines, name)
    decreases |lines|
  {
    if lines != [] {
      CollectValues(lines[..|lines| - 1], name);
    }
  }

  /** No name is collected twice, and every collected name is lower-case. */
  lemma {:induction false} CollectKeys(lines: seq<string>)
    ensures PhpArrays.UniqueKeys(Collect(lines))
    ensures forall i :: 0 <= i < |Collect(lines)| ==> ToLower(Collect(lines)[i].0) == Collect(lines)[i].0
    decreases |lines|
  {
    if lines != [] {
      var c := Collect(lines[..|lines| - 1]);
      CollectKeys(lines[..|lines| - 1]);
      var field := LineField(lines[|lines| - 1]);
      if field.Some? {
        var (name, value) := field.value;
        var r := PhpArrays.Assign(c, name, PhpArrays.Get(c, name).GetOr([]) + [value]);
        if PhpArrays.Find(c, name).Some? {
          assert forall i :: 0 <= i < |r| ==> r[i].0 == PhpArrays.Keys(r)[i] == PhpArrays.Keys(c)[i] == c[i].0;
        }
      }
    }
  }

  /** The status line and the blank line that ends the header section hold no ':' and are skipped. */
  lemma StatusLineSkipped(c: Collected)
    ensures CollectLine(c, "HTTP/1.1 200 OK\r\n") == c
    ensures CollectLine(c, "\r\n") == c
  {
    assert ':' !in "HTTP/1.1 200 OK\r\n";
  }

  /**
   * The callback's bookkeeping: `$responseHeaders`, which the closure
   * captures by reference and updates on every call.
   */
  class HeaderCollector {
    var responseHeaders: Collected

    constructor ()
      ensures responseHeaders == []
    {
      responseHeaders := [];
    }

    /** The header callback: records the line and tells curl it consumed all of it. */
    method OnHeaderLine(line: string) returns (length: nat)
      modifies this
      ensures length == |line|
      ensures responseHeaders == CollectLine(old(responseHeaders), line)
    {
      length := |line|;
      var (before, after) := SplitFirst(line, ':');
      if after.None? {
        return;
      }
      var name := ToLower(Trim(before));
      var values := PhpArrays.Get(responseHeaders, name).GetOr([]);
      responseHeaders := PhpArrays.Assign(responseHeaders, name, values + [Trim(after.value)]);
    }
  }

  /** `withHeader($name, $value)` for every collected name, in collected order. */
  function WithCollected(h: Headers, c: Collected): Headers
    decreases |c|
  {
    if c == [] then h else Set(WithCollected(h, c[..|c| - 1]), c[|c| - 1].0, c[|c| - 1].1)
  }

  /**
   * Once copied onto a response without headers, a collection of unique
   * lower-case names answers every lookup, in any casing, with what was
   * collected under the lower-cased name.
   */
  lemma {:induction false} WithCollectedGet(c: Collected, name: string)
    requires PhpArrays.UniqueKeys(c)
    requires forall i :: 0 <= i < |c| ==> ToLower(c[i].0) == c[i].0
    ensures Get(WithCollected([], c), name) == PhpArrays.Get(c, ToLower(name)).GetOr([])
    decreases |c|
  {
    if c != [] {
      var init := c[..|c| - 1];
      var (k, vs) := c[|c| - 1];
      assert c == init + [(k, vs)];
      WithCollectedGet(init, name);
      PhpArrays.GetSnoc(init, (k, vs), ToLower(name));
      if SameName(k, name) {
        GetIgnoresCase(WithCollected([], c), k, name);
        assert PhpArrays.Find(init, k).None?;
      } else {
        assert k != ToLower(name);
        if PhpArrays.Find(init, ToLower(name)).None? {
          assert PhpArrays.Get(init, ToLower(name)) == None;
        }
      }
    }
  }

  /** The response's header of any name, in any casing, holds the values of every line with that name, in order. */
  lemma ResponseHeaderValues(lines: seq<string>, name: string)
    ensures Get(WithCollected([], Collect(lines)), name) == ValuesFor(lines, ToLower(name))
  {
    CollectKeys(lines);
    WithCollectedGet(Collect(lines), name);
    CollectValues(lines, ToLower(name));
  }

  /**
   * What libcurl reports once `curl_exec` has run: the header lines handed
   * to the header callback, the body written to the sink, the
   * `CURLINFO_HTTP_CODE` and `CURLINFO_HTTP_VERSION` values, and
   * `curl_errno` and `curl_error`.
   */
  datatype Reply = Reply(headerLines: seq<string>, content: string, statusCode: int, protocolVersion: string,
                         errorCode: int, curlError: string)

  /**
   * What `sendRequest` returns once curl has run: the response built from
   * the status, the version, the body read and the collected headers, or
   * the exception its error code maps to.
   */
  function Completed(sent: Request, statusCode: int, protocolVersion: string, content: string, collected: Collected,
                     errorCode: int, curlError: string): (r: Result<Response, Exception>)
    ensures r.Success? <==> errorCode == CURLE_OK
    ensures r.Success? ==> r.value == Response(statusCode, "", WithCollected([], collected), protocolVersion, CreateStream(content))
    ensures r.Failure? ==> Fail(r.error) == Classify(sent, errorCode, ErrorMessage(curlError))
  {
    match Classify(sent, errorCode, ErrorMessage(curlError))
    case Pass => Success(Response(statusCode, "", WithCollected([], collected), protocolVersion, CreateStream(content)))
    case Fail(e) => Failure(e)
  }

  /**
   * The end of `sendRequest`: the response is created, every collected
   * header is set on it in turn, and the error code decides.
   */
  method Finish(sent: Request, statusCode: int, protocolVersion: string, content: string, collected: Collected,
                errorCode: int, curlError: string)
    returns (r: Result<Response, Exception>)
    ensures r == Completed(sent, statusCode, protocolVersion, content, collected, errorCode, curlError)
  {
    var response := Response(statusCode, "", [], protocolVersion, CreateStream(content));
    var i := 0;
    while i < |collected|
      invariant 0 <= i <= |collected|
      invariant response == Response(statusCode, "", WithCollected([], collected[..i]), protocolVersion, CreateStream(content))
    {
      assert collected[..i + 1][..i] == collected[..i];
      var (name, values) := collected[i];
      response := response.(headers := Set(response.headers, name, values));
      i := i + 1;
    }
    assert collected[..i] == collected;
    var message := ErrorMessage(curlError);
    match Classify(sent, errorCode, message)
    case Pass => r := Success(response);
    case Fail(e) => r := Failure(e);
  }
}
