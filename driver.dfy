/**
 * A driver object (`StreamDriver` or `CurlDriver`): its response factory,
 * its timeout and redirect settings, and `sendRequest`, which prepares the
 * request, hands it to the network exchange and reads the answer back.
 * What happens on the wire is a function handed in at construction; every
 * decision around it is the driver's own.
 */
module Transport {
  import opened Wrappers
  import opened MessageHeaders
  import opened Messages
  import opened Exceptions
  import opened TimeoutFeature
  import opened RedirectsFeature
  import StreamDriver
  import CurlDriver
  import PhpStrings

  /** The message of the `Error` PHP raises when a typed property is read before it is assigned. */
  const UNINITIALIZED_FACTORY :=
    "Typed property Radiergummi\\Wander\\Drivers\\AbstractDriver::$responseFactory must not be accessed before initialization"

  /** `getResponseFactory` before any `setResponseFactory`. */
  function FactoryError(): Exception {
    Thrown("Error", UNINITIALIZED_FACTORY)
  }

  /** The network step of a driver, given the options it prepared and the request it sends. */
  datatype Exchange =
    /**
     * `file_get_contents` with the `http` context: the status line, the
     * other header lines and the body, or the exception raised on the way
     * (an invalid URL, a host that does not resolve).
     */
    | StreamExchange(fetch: (StreamDriver.HttpOptions, Request) -> Result<StreamDriver.Reply, Exception>)
    /** `curl_exec` on a handle with the options set, and what libcurl reports afterwards. */
    | CurlExchange(perform: (CurlDriver.CurlOptions, Request) -> CurlDriver.Reply)

  class Driver {
    /** `$responseFactory`, a typed property that has no value until it is set. */
    var responseFactory: Option<Psr17Factory>
    const timeouts: Timeouts
    const redirects: Redirects
    const exchange: Exchange

    ghost predicate Valid()
      reads this, timeouts, redirects
    {
      timeouts.Valid() && redirects.Valid()
    }

    constructor (exchange: Exchange)
      ensures this.exchange == exchange && responseFactory == None
      ensures fresh(timeouts) && fresh(redirects) && Valid()
      ensures timeouts.timeout == None && redirects.followRedirects && redirects.maximumRedirects == None
    {
      this.exchange := exchange;
      responseFactory := None;
      timeouts := new Timeouts();
      redirects := new Redirects();
    }

    /** `setResponseFactory`. */
    method SetResponseFactory(factory: Psr17Factory)
      modifies this`responseFactory
      ensures responseFactory == Some(factory)
    {
      responseFactory := Some(factory);
    }

    /** `getResponseFactory`: the factory last set, or PHP's `Error` before the first `setResponseFactory`. */
    method GetResponseFactory() returns (r: Result<Psr17Factory, Exception>)
      ensures r.Success? <==> responseFactory.Some?
      ensures r.Success? ==> r.value == responseFactory.value
      ensures r.Failure? ==> r.error == FactoryError()
    {
      if responseFactory.None? {
        return Failure(FactoryError());
      }
      r := Success(responseFactory.value);
    }

    /**
     * The answer to `sendRequest`: the options prepared from the request and
     * the settings, the exchange run with them, then the response factory
     * read, and the response built from what the exchange returned.
     */
    function Answer(request: Request): Result<Response, Exception>
      reads this, timeouts, redirects
    {
      match exchange
      case StreamExchange(fetch) =>
        var options := StreamDriver.OptionsFor(request, redirects.followRedirects, redirects.maximumRedirects, timeouts.timeout);
        var reply := fetch(options, request.(headers := StreamDriver.WireHeaders(request)));
        if reply.Failure? then Failure(reply.error)
        else if responseFactory.None? then Failure(FactoryError())
        else
          var raw := reply.value;
          StreamDriver.WithResponseHeaders(StreamDriver.StatusResponse(raw.statusLine, raw.content), raw.headerLines)
      case CurlExchange(perform) =>
        var sent := request.(headers := CurlDriver.CurlHeaders(request));
        var reply := perform(CurlDriver.OptionsFor(request), sent);
        if responseFactory.None? then Failure(FactoryError())
        else
          CurlDriver.Completed(sent, reply.statusCode, reply.protocolVersion, reply.content,
                               CurlDriver.Collect(reply.headerLines), reply.errorCode, reply.curlError)
    }

    /** `sendRequest`, step by step as each driver takes it. */
    method SendRequest(request: Request) returns (r: Result<Response, Exception>)
      ensures r == Answer(request)
    {
      match exchange
      case StreamExchange(fetch) =>
        var options, sent :=
          StreamDriver.PrepareOptions(request, redirects.followRedirects, redirects.maximumRedirects, timeouts.timeout);
        var reply := fetch(options, sent);
        if reply.Failure? {
          return Failure(reply.error);
        }
        var factory := GetResponseFactory();
        if factory.Failure? {
          return Failure(factory.error);
        }
        r := StreamDriver.ReadResponse(reply.value.statusLine, reply.value.headerLines, reply.value.content);
      case CurlExchange(perform) =>
        var options, sent := CurlDriver.PrepareOptions(request);
        var collector := new CurlDriver.HeaderCollector();
        var reply := perform(options, sent);
        var lines := reply.headerLines;
        var i := 0;
        while i < |lines|
          invariant 0 <= i <= |lines|
          invariant collector.responseHeaders == CurlDriver.Collect(lines[..i])
        {
          assert lines[..i + 1][..i] == lines[..i];
          var length := collector.OnHeaderLine(lines[i]);
          i := i + 1;
        }
        assert lines[..i] == lines;
        var factory := GetResponseFactory();
        if factory.Failure? {
          return Failure(factory.error);
        }
        r := CurlDriver.Finish(sent, reply.statusCode, reply.protocolVersion, reply.content,
                               collector.responseHeaders, reply.errorCode, reply.curlError);
    }
  }

  /**
   * Before a response factory is set, the stream driver still runs the
   * exchange and reports its exception; otherwise, and always for the curl
   * driver, the answer is PHP's `Error`.
   */
  lemma MissingFactoryAnswer(d: Driver, request: Request)
    requires d.responseFactory.None?
    ensures d.exchange.CurlExchange? ==> d.Answer(request) == Failure(FactoryError())
    ensures d.exchange.StreamExchange? ==>
              var reply := d.exchange.fetch(StreamDriver.OptionsFor(request, d.redirects.followRedirects,
                                                                    d.redirects.maximumRedirects, d.timeouts.timeout),
                                            request.(headers := StreamDriver.WireHeaders(request)));
              d.Answer(request) == if reply.Failure? then Failure(reply.error) else Failure(FactoryError())
  {
  }

  /**
   * With a factory set, the stream driver answers exactly when the exchange
   * succeeds and every header line holds a ':'; the status, reason,
   * version and body come from the status line and the body read.
   */
  lemma StreamAnswer(d: Driver, request: Request)
    requires d.exchange.StreamExchange? && d.responseFactory.Some?
    ensures var reply := d.exchange.fetch(StreamDriver.OptionsFor(request, d.redirects.followRedirects,
                                                                  d.redirects.maximumRedirects, d.timeouts.timeout),
                                          request.(headers := StreamDriver.WireHeaders(request)));
            var r := d.Answer(request);
            (r.Success? <==> reply.Success? && forall i :: 0 <= i < |reply.value.headerLines| ==> ':' in reply.value.headerLines[i]) &&
            (reply.Failure? ==> r == Failure(reply.error)) &&
            (r.Success? ==>
               var status := StreamDriver.StatusResponse(reply.value.statusLine, reply.value.content);
               r.value.statusCode == status.statusCode && r.value.reasonPhrase == status.reasonPhrase &&
               r.value.protocolVersion == status.protocolVersion && r.value.body == CreateStream(reply.value.content))
  {
  }

  /**
   * With a factory set, the curl driver answers exactly when curl reports
   * no error, with the reported status, version and body, and under every
   * name, in any casing, the values of the header lines of that name in
   * arrival order; otherwise it raises the exception the error code maps to.
   */
  lemma CurlAnswer(d: Driver, request: Request, name: string)
    requires d.exchange.CurlExchange? && d.responseFactory.Some?
    ensures var sent := request.(headers := CurlDriver.CurlHeaders(request));
            var reply := d.exchange.perform(CurlDriver.OptionsFor(request), sent);
            var r := d.Answer(request);
            (r.Success? <==> reply.errorCode == CurlDriver.CURLE_OK) &&
            (r.Success? ==>
               r.value.statusCode == reply.statusCode && r.value.protocolVersion == reply.protocolVersion &&
               r.value.body == CreateStream(reply.content) &&
               Get(r.value.headers, name) == CurlDriver.ValuesFor(reply.headerLines, PhpStrings.ToLower(name))) &&
            (r.Failure? ==> Fail(r.error) == CurlDriver.Classify(sent, reply.errorCode, CurlDriver.ErrorMessage(reply.curlError)))
  {
    var sent := request.(headers := CurlDriver.CurlHeaders(request));
    var reply := d.exchange.perform(CurlDriver.OptionsFor(request), sent);
    CurlDriver.ResponseHeaderValues(reply.headerLines, name);
  }
}
