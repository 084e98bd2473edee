/**
 * The client and its two contexts.  A request context is a mutable
 * builder around an immutable request plus a body that is not serialised
 * yet; `run` serialises the body, hands the request to the client once,
 * and wraps the response in a response context, which parses the body on
 * demand and keeps a truthy result.
 */
module Client {
  import opened Wrappers
  import opened PhpStrings
  import PhpArrays
  import opened MessageHeaders
  import opened Messages
  import opened Exceptions
  import opened Values
  import opened FormEncoding
  import opened QueryParameters
  import opened Status
  import HttpMethod
  import MediaType
  import Authorization
  import Base64
  import opened ContextTrait
  import opened Serializers
  import opened Registry
  import opened Transport

  /** The serialisers a new client registers. */
  function DefaultSerializers(json: JsonLibrary): map<string, Serializer> {
    map[MediaType.APPLICATION_JSON := Json(json),
        MediaType.TEXT_PLAIN := PlainText,
        MediaType.APPLICATION_X_WWW_FORM_URLENCODED := UrlEncoded]
  }

  /** A new client resolves exactly its three media types, and nothing else. */
  lemma DefaultResolution(json: JsonLibrary, mediaType: string)
    ensures Lookup(DefaultSerializers(json), MediaType.APPLICATION_JSON) == Some(Json(json))
    ensures Lookup(DefaultSerializers(json), MediaType.TEXT_PLAIN) == Some(PlainText)
    ensures Lookup(DefaultSerializers(json), MediaType.APPLICATION_X_WWW_FORM_URLENCODED) == Some(UrlEncoded)
    ensures Lookup(DefaultSerializers(json), mediaType).Some? <==>
            mediaType in {MediaType.APPLICATION_JSON, MediaType.TEXT_PLAIN, MediaType.APPLICATION_X_WWW_FORM_URLENCODED}
  {
  }

  /**
   * What `request` makes of the driver's answer: a driver exception
   * passes through; a response with an error status becomes a response
   * error; any other response is returned.
   */
  function Dispatch(request: Request, answer: Result<Response, Exception>): Result<Response, Exception> {
    match answer
    case Failure(e) => Failure(e)
    case Success(response) =>
      if IsError(response.statusCode) then Failure(ResponseError(request, response)) else Success(response)
  }

  /**
   * A response raises exactly when its status is 400 to 599; the error
   * carries request and response, its code is the status, and any other
   * response (below 400, or 600 and above) comes back unchanged.
   */
  lemma DispatchResponse(request: Request, response: Response)
    ensures Dispatch(request, Success(response)).Failure? <==> 400 <= response.statusCode <= 599
    ensures Dispatch(request, Success(response)).Success? ==> Dispatch(request, Success(response)).value == response
    ensures Dispatch(request, Success(response)).Failure? ==>
              var e := Dispatch(request, Success(response)).error;
              e.HasRequest() && e.GetRequest() == request && e.response == response &&
              e.Code() == response.statusCode &&
              e.Message() == "Request failed with status " + IntToString(response.statusCode)
  {
  }

  /** The driver's own exceptions reach the caller unchanged. */
  lemma DispatchDriverFailure(request: Request, e: Exception)
    ensures Dispatch(request, Failure(e)) == Failure(e)
  {
  }

  /**
   * The serialiser for a message: the one registered under its content
   * type without parameters (text/plain when there is none), or the
   * plain-text serialiser when none is registered.
   */
  function SerializerFor(h: Headers, serializers: map<string, Serializer>): Serializer {
    Lookup(serializers, GetContentType(h, true).GetOr(MediaType.TEXT_PLAIN)).GetOr(PlainText)
  }

  /** A content type with parameters selects the serialiser of its bare media type. */
  lemma SerializerForStripsParameters(h: Headers, serializers: map<string, Serializer>, mediaType: string, parameters: string)
    requires mediaType != "" && ';' !in mediaType && IsTrimmed(mediaType)
    requires Line(h, CONTENT_TYPE) == mediaType + ";" + parameters
    ensures SerializerFor(h, serializers) == Lookup(serializers, mediaType).GetOr(PlainText)
  {
    StripParametersOfMediaType(mediaType, parameters);
    assert Line(h, CONTENT_TYPE)[|mediaType|] == ';';
  }

  /** A content type without parameters selects its own serialiser. */
  lemma SerializerForPlainType(h: Headers, serializers: map<string, Serializer>, mediaType: string)
    requires PlainMediaType(mediaType)
    requires Get(h, CONTENT_TYPE) == [mediaType]
    ensures SerializerFor(h, serializers) == Lookup(serializers, mediaType).GetOr(PlainText)
  {
    StripPlainMediaType(mediaType);
  }

  /** Without a content type the text/plain entry is used, and the plain-text serialiser when that is missing too. */
  lemma SerializerForMissingType(h: Headers, serializers: map<string, Serializer>)
    requires !Has(h, CONTENT_TYPE)
    ensures SerializerFor(h, serializers) == Lookup(serializers, MediaType.TEXT_PLAIN).GetOr(PlainText)
    ensures MediaType.TEXT_PLAIN !in serializers ==> SerializerFor(h, serializers) == PlainText
  {
  }

  /**
   * The request `run` sends: the request as it is when there is no body,
   * the stream attached as it is for a stream body, and otherwise the
   * result of the chosen serialiser's `apply`, which may raise instead.
   */
  function Prepare(request: Request, body: Value, serializers: map<string, Serializer>): Result<Request, Exception> {
    if body.Null? then Success(request)
    else if body.StreamBody? then Success(request.(body := body.stream))
    else Apply(SerializerFor(request.headers, serializers), request, body)
  }

  /**
   * A JSON-typed string body is sent as whatever the JSON extension
   * encodes it to, with every other part of the request kept.
   */
  lemma PrepareJsonBody(request: Request, library: JsonLibrary, serializers: map<string, Serializer>, text: string, encoded: string)
    requires Get(request.headers, CONTENT_TYPE) == [MediaType.APPLICATION_JSON]
    requires Lookup(serializers, MediaType.APPLICATION_JSON) == Some(Json(library))
    requires library.encode(Str(text), JSON_THROW_ON_ERROR) == Success(encoded)
    ensures Prepare(request, Str(text), serializers) == Success(request.(body := CreateStream(encoded)))
  {
    PlainMediaTypes();
    SerializerForPlainType(request.headers, serializers, MediaType.APPLICATION_JSON);
    assert WithThrowOnError(None) == JSON_THROW_ON_ERROR;
  }

  /** A plain-text or untyped string body is sent byte for byte. */
  lemma PreparePlainBody(request: Request, serializers: map<string, Serializer>, text: string)
    requires !Has(request.headers, CONTENT_TYPE)
    requires MediaType.TEXT_PLAIN !in serializers || serializers[MediaType.TEXT_PLAIN] == PlainText
    ensures Prepare(request, Str(text), serializers) == Success(request.(body := CreateStream(text)))
  {
    SerializerForMissingType(request.headers, serializers);
  }

  /** A body the chosen serialiser cannot write is refused and nothing is sent. */
  lemma PrepareRefusedBody(request: Request, serializers: map<string, Serializer>, body: Value)
    requires MediaType.TEXT_PLAIN !in serializers && !Has(request.headers, CONTENT_TYPE)
    requires body.Obj? && body.toString.None?
    ensures Prepare(request, body, serializers).Failure?
  {
    SerializerForMissingType(request.headers, serializers);
  }

  /** `withHeader` or, with `append`, `withAddedHeader` for one entry. */
  function UpdateHeader(h: Headers, entry: (string, seq<string>), append: bool): Headers {
    if append then Add(h, entry.0, entry.1) else Set(h, entry.0, entry.1)
  }

  /** `withHeaders`: every entry in turn. */
  function ApplyHeaders(h: Headers, entries: seq<(string, seq<string>)>, append: bool): Headers
    decreases |entries|
  {
    if entries == [] then h
    else UpdateHeader(ApplyHeaders(h, entries[..|entries| - 1], append), entries[|entries| - 1], append)
  }

  /** One more entry is one more update. */
  lemma ApplyHeadersStep(h: Headers, entries: seq<(string, seq<string>)>, append: bool, i: nat)
    requires i < |entries|
    ensures ApplyHeaders(h, entries[..i + 1], append) == UpdateHeader(ApplyHeaders(h, entries[..i], append), entries[i], append)
  {
    assert entries[..i + 1][..i] == entries[..i];
  }

  /** Headers no entry names are untouched. */
  lemma {:induction false} ApplyHeadersElsewhere(h: Headers, entries: seq<(string, seq<string>)>, append: bool, name: string)
    requires forall i :: 0 <= i < |entries| ==> !SameName(entries[i].0, name)
    ensures Get(ApplyHeaders(h, entries, append), name) == Get(h, name)
    decreases |entries|
  {
    if entries != [] {
      ApplyHeadersElsewhere(h, entries[..|entries| - 1], append, name);
    }
  }

  /**
   * With distinct names, each entry's header ends up holding exactly its
   * values, or with `append` the earlier values followed by them.
   */
  lemma {:induction false} ApplyHeadersGet(h: Headers, entries: seq<(string, seq<string>)>, append: bool, k: nat)
    requires forall i, j :: 0 <= i < j < |entries| ==> !SameName(entries[i].0, entries[j].0)
    requires k < |entries|
    ensures Get(ApplyHeaders(h, entries, append), entries[k].0) ==
            (if append then Get(h, entries[k].0) else []) + entries[k].1
    decreases |entries|
  {
    var init := entries[..|entries| - 1];
    if k == |entries| - 1 {
      ApplyHeadersElsewhere(h, init, append, entries[k].0);
    } else {
      ApplyHeadersGet(h, init, append, k);
    }
  }

  /** `withHeaders` keeps a header list free of duplicates. */
  lemma {:induction false} ApplyHeadersWellFormed(h: Headers, entries: seq<(string, seq<string>)>, append: bool)
    requires WellFormed(h)
    ensures WellFormed(ApplyHeaders(h, entries, append))
    decreases |entries|
  {
    if entries != [] {
      ApplyHeadersWellFormed(h, entries[..|entries| - 1], append);
    }
  }

  /** The credentials of Basic authorisation: the base64 of "user:password", a null password written as "". */
  function BasicCredentials(username: string, password: Option<string>): string {
    Base64.Encode(Octets(username + ":" + password.GetOr("")))
  }

  /** The credentials decode back to the bytes of "user:password". */
  lemma BasicCredentialsDecode(username: string, password: Option<string>)
    ensures Base64.Decode(BasicCredentials(username, password)) == Some(Octets(username + ":" + password.GetOr("")))
  {
    Base64.DecodeEncode(Octets(username + ":" + password.GetOr("")));
  }

  /** Different user/password texts give different credentials. */
  lemma BasicCredentialsInjective(u1: string, p1: Option<string>, u2: string, p2: Option<string>)
    requires BasicCredentials(u1, p1) == BasicCredentials(u2, p2)
    ensures Octets(u1 + ":" + p1.GetOr("")) == Octets(u2 + ":" + p2.GetOr(""))
  {
    BasicCredentialsDecode(u1, p1);
    BasicCredentialsDecode(u2, p2);
  }

  /** The HTTP client. */
  class Wander {
    var driver: Driver
    var requestFactory: Psr17Factory
    var responseFactory: Psr17Factory
    const serializerRegistry: SerializerRegistry
    /** Every request handed to the driver, in order. */
    ghost var sent: seq<Request>

    /**
     * The factories are set before the driver, so the driver receives the
     * response factory; a factory not given is one shared `Psr17Factory`;
     * the registry starts with the JSON, plain-text and form serialisers.
     */
    constructor (json: JsonLibrary, driver: Driver, requestFactory: Option<Psr17Factory> := None,
                 responseFactory: Option<Psr17Factory> := None)
      modifies driver`responseFactory
      ensures this.driver == driver && driver.responseFactory == Some(this.responseFactory)
      ensures requestFactory.Some? ==> this.requestFactory == requestFactory.value
      ensures responseFactory.Some? ==> this.responseFactory == responseFactory.value
      ensures requestFactory.None? && responseFactory.None? ==>
                this.requestFactory == this.responseFactory && fresh(this.requestFactory)
      ensures fresh(serializerRegistry) && serializerRegistry.serializers == DefaultSerializers(json)
      ensures sent == []
    {
      var factory := new Psr17Factory();
      this.requestFactory := requestFactory.GetOr(factory);
      var response := responseFactory.GetOr(factory);
      this.responseFactory := response;
      this.driver := driver;
      driver.SetResponseFactory(response);
      var registry := new SerializerRegistry();
      registry.Register(MediaType.APPLICATION_JSON, Json(json));
      registry.Register(MediaType.TEXT_PLAIN, PlainText);
      registry.Register(MediaType.APPLICATION_X_WWW_FORM_URLENCODED, UrlEncoded);
      serializerRegistry := registry;
      sent := [];
    }

    /** `setDriver`: stores the driver and hands it the client's response factory. */
    method SetDriver(driver: Driver)
      modifies this`driver, driver`responseFactory
      ensures this.driver == driver && driver.responseFactory == Some(responseFactory)
    {
      this.driver := driver;
      driver.SetResponseFactory(responseFactory);
    }

    /** `addSerializer`: registers or replaces the serialiser for `mediaType`, and returns the client. */
    method AddSerializer(mediaType: string, serializer: Serializer) returns (self: Wander)
      modifies serializerRegistry
      ensures self == this
      ensures serializerRegistry.serializers == old(serializerRegistry.serializers)[mediaType := serializer]
    {
      serializerRegistry.Register(mediaType, serializer);
      self := this;
    }

    /** `createContextFromRequest`: a context around the request, with no body. */
    method CreateContextFromRequest(request: Request) returns (c: RequestContext)
      ensures fresh(c) && c.client == this && c.request == request && c.body == Null
    {
      c := new RequestContext(this, request);
    }

    /** `createContext`: a context around a new request for the method and URI. */
    method CreateContext(httpMethod: string, uri: Uri) returns (c: RequestContext)
      ensures fresh(c) && c.client == this && c.request == CreateRequest(httpMethod, uri) && c.body == Null
    {
      c := CreateContextFromRequest(CreateRequest(httpMethod, uri));
    }

    method Get(uri: Uri) returns (c: RequestContext)
      ensures fresh(c) && c.client == this && c.request == CreateRequest(HttpMethod.GET, uri) && c.body == Null
    {
      c := CreateContext(HttpMethod.GET, uri);
    }

    method Head(uri: Uri) returns (c: RequestContext)
      ensures fresh(c) && c.client == this && c.request == CreateRequest(HttpMethod.HEAD, uri) && c.body == Null
    {
      c := CreateContext(HttpMethod.HEAD, uri);
    }

    method Options(uri: Uri) returns (c: RequestContext)
      ensures fresh(c) && c.client == this && c.request == CreateRequest(HttpMethod.OPTIONS, uri) && c.body == Null
    {
      c := CreateContext(HttpMethod.OPTIONS, uri);
    }

    method Delete(uri: Uri) returns (c: RequestContext)
      ensures fresh(c) && c.client == this && c.request == CreateRequest(HttpMethod.DELETE, uri) && c.body == Null
    {
      c := CreateContext(HttpMethod.DELETE, uri);
    }

    /** `post`: the body is kept only when it is truthy. */
    method Post(uri: Uri, body: Value := Null) returns (c: RequestContext)
      ensures fresh(c) && c.client == this && c.request == CreateRequest(HttpMethod.POST, uri)
      ensures c.body == (if Truthy(body) then body else Null)
    {
      c := CreateContext(HttpMethod.POST, uri);
      if Truthy(body) {
        var self := c.WithBody(body);
      }
    }

    /** `put`: the body is kept only when it is truthy. */
    method Put(uri: Uri, body: Value := Null) returns (c: RequestContext)
      ensures fresh(c) && c.client == this && c.request == CreateRequest(HttpMethod.PUT, uri)
      ensures c.body == (if Truthy(body) then body else Null)
    {
      c := CreateContext(HttpMethod.PUT, uri);
      if Truthy(body) {
        var self := c.WithBody(body);
      }
    }

    /** `patch`: the body is kept only when it is truthy. */
    method Patch(uri: Uri, body: Value := Null) returns (c: RequestContext)
      ensures fresh(c) && c.client == this && c.request == CreateRequest(HttpMethod.PATCH, uri)
      ensures c.body == (if Truthy(body) then body else Null)
    {
      c := CreateContext(HttpMethod.PATCH, uri);
      if Truthy(body) {
        var self := c.WithBody(body);
      }
    }

    /** `request`: one call to the driver, then the status decides (`Dispatch`). */
    method Request(request: Request) returns (r: Result<Response, Exception>)
      modifies this`sent
      ensures sent == old(sent) + [request]
      ensures r == Dispatch(request, driver.Answer(request))
    {
      var answer := driver.SendRequest(request);
      sent := sent + [request];
      r := Dispatch(request, answer);
    }
  }

  /** A request under construction. */
  class RequestContext {
    const client: Wander
    var request: Request
    /** The body not yet serialised; `Null` when none is set. */
    var body: Value

    constructor (client: Wander, request: Request)
      ensures this.client == client && this.request == request && body == Null
    {
      this.client := client;
      this.request := request;
      body := Null;
    }

    /** `setRequest`: replaces the request outright. */
    method SetRequest(request: Request)
      modifies this`request
      ensures this.request == request
    {
      this.request := request;
    }

    method GetRequest() returns (r: Request)
      ensures r == request
    {
      r := request;
    }

    /** `withMethod`: only the method changes. */
    method WithMethod(httpMethod: string) returns (self: RequestContext)
      modifies this`request
      ensures self == this && request == old(request).(httpMethod := httpMethod)
    {
      request := request.(httpMethod := httpMethod);
      self := this;
    }

    method GetMethod() returns (r: string)
      ensures r == request.httpMethod
    {
      r := request.httpMethod;
    }

    /** `withUri`: only the URI changes. */
    method WithUri(uri: Uri, preserveHost: bool := false) returns (self: RequestContext)
      modifies this`request
      ensures self == this && request == old(request).(uri := uri)
    {
      request := request.(uri := uri);
      self := this;
    }

    method GetUri() returns (r: Uri)
      ensures r == request.uri
    {
      r := request.uri;
    }

    /** `withQueryString`: only the URI's query changes. */
    method WithQueryString(query: string) returns (self: RequestContext)
      modifies this`request
      ensures self == this && request == old(request).(uri := old(request).uri.(query := query))
    {
      self := WithUri(request.uri.(query := query));
    }

    method GetQueryString() returns (r: string)
      ensures r == request.uri.query
    {
      r := request.uri.query;
    }

    /** `withQueryParameters`: the query becomes the form encoding of the parameters. */
    method WithQueryParameters(parameters: seq<(string, Scalar)>) returns (self: RequestContext)
      modifies this`request
      ensures self == this && request == old(request).(uri := old(request).uri.(query := BuildQuery(parameters)))
      ensures Writable(parameters) ==> Decode(request.uri.query) == Stringified(parameters)
    {
      self := WithQueryString(BuildQuery(parameters));
      if Writable(parameters) {
        DecodeEncoded(parameters);
      }
    }

    /** `getQueryParameters`. */
    method GetQueryParameters() returns (r: seq<(string, string)>)
      ensures r == Decode(request.uri.query)
    {
      r := Decode(request.uri.query);
    }

    /** `withQueryParameter`: `name` reads back as the value's text, the other parameters as before. */
    method WithQueryParameter(name: string, value: Scalar) returns (self: RequestContext)
      modifies this`request
      ensures self == this
      ensures request == old(request).(uri := old(request).uri.(query := WithParameter(old(request).uri.query, name, value)))
      ensures name != "" ==> PhpArrays.Get(Decode(request.uri.query), name) == QueryText(value)
      ensures name != "" ==> forall k {:trigger PhpArrays.Get(Decode(request.uri.query), k)} :: k != name ==> PhpArrays.Get(Decode(request.uri.query), k) == PhpArrays.Get(Decode(old(request).uri.query), k)
    {
      var parameters := GetQueryParameters();
      self := WithQueryParameters(PhpArrays.Assign(Lift(parameters), name, value));
      if name != "" {
        ParameterAfterSet(old(request).uri.query, name, value);
      }
    }

    /** `withoutQueryParameter`: `name` is gone and the other parameters read as before. */
    method WithoutQueryParameter(name: string) returns (self: RequestContext)
      modifies this`request
      ensures self == this
      ensures request == old(request).(uri := old(request).uri.(query := WithoutParameter(old(request).uri.query, name)))
      ensures PhpArrays.Get(Decode(request.uri.query), name) == None
      ensures forall k {:trigger PhpArrays.Get(Decode(request.uri.query), k)} :: k != name ==> PhpArrays.Get(Decode(request.uri.query), k) == PhpArrays.Get(Decode(old(request).uri.query), k)
      ensures PhpArrays.Get(Decode(old(request).uri.query), name).None? ==> Decode(request.uri.query) == Decode(old(request).uri.query)
    {
      var parameters := GetQueryParameters();
      self := WithQueryParameters(PhpArrays.Unset(Lift(parameters), name));
      ParameterAfterUnset(old(request).uri.query, name);
    }

    /** `getQueryParameter`: the parameter's text, or null. */
    method GetQueryParameter(name: string) returns (r: Option<string>)
      ensures r == PhpArrays.Get(Decode(request.uri.query), name)
    {
      var parameters := GetQueryParameters();
      r := PhpArrays.Get(parameters, name);
    }

    /**
     * `withHeader`: without `append` the header holds exactly `values`;
     * with it, `values` follow the ones already there.  Other headers are
     * unchanged either way.
     */
    method WithHeader(name: string, values: seq<string>, append: bool := false) returns (self: RequestContext)
      modifies this`request
      ensures self == this && request == old(request).(headers := UpdateHeader(old(request).headers, (name, values), append))
      ensures MessageHeaders.Get(request.headers, name) == (if append then MessageHeaders.Get(old(request).headers, name) else []) + values
      ensures forall n {:trigger MessageHeaders.Get(request.headers, n)} :: !SameName(n, name) ==> MessageHeaders.Get(request.headers, n) == MessageHeaders.Get(old(request).headers, n)
    {
      request := request.(headers := UpdateHeader(request.headers, (name, values), append));
      self := this;
    }

    /** `withHeaders`: `withHeader` for each entry in turn, with the same `append`. */
    method WithHeaders(entries: seq<(string, seq<string>)>, append: bool := false) returns (self: RequestContext)
      modifies this`request
      ensures self == this && request == old(request).(headers := ApplyHeaders(old(request).headers, entries, append))
    {
      var i := 0;
      while i < |entries|
        invariant 0 <= i <= |entries|
        invariant request == old(request).(headers := ApplyHeaders(old(request).headers, entries[..i], append))
      {
        ApplyHeadersStep(old(request).headers, entries, append, i);
        self := WithHeader(entries[i].0, entries[i].1, append);
        i := i + 1;
      }
      assert entries[..i] == entries;
      self := this;
    }

    /** `withoutHeader`: the header is gone in every casing; the others are unchanged. */
    method WithoutHeader(name: string) returns (self: RequestContext)
      modifies this`request
      ensures self == this && request == old(request).(headers := Remove(old(request).headers, name))
      ensures !Has(request.headers, name)
      ensures forall n {:trigger MessageHeaders.Get(request.headers, n)} :: !SameName(n, name) ==> MessageHeaders.Get(request.headers, n) == MessageHeaders.Get(old(request).headers, n)
    {
      request := request.(headers := Remove(request.headers, name));
      self := this;
    }

    /** `withAuthorization`: exactly one Authorization value, "type credentials", however often it is called. */
    method WithAuthorization(authType: string, credentials: string) returns (self: RequestContext)
      modifies this`request
      ensures self == this && request == old(request).(headers := Set(old(request).headers, AUTHORIZATION, [authType + " " + credentials]))
      ensures MessageHeaders.Get(request.headers, AUTHORIZATION) == [authType + " " + credentials]
    {
      self := WithHeader(AUTHORIZATION, [authType + " " + credentials]);
    }

    /** `withBasicAuthorization`: "Basic " and the base64 of "user:password". */
    method WithBasicAuthorization(username: string, password: Option<string>) returns (self: RequestContext)
      modifies this`request
      ensures self == this
      ensures request == old(request).(headers := Set(old(request).headers, AUTHORIZATION, [Authorization.BASIC + " " + BasicCredentials(username, password)]))
      ensures MessageHeaders.Get(request.headers, AUTHORIZATION) == [Authorization.BASIC + " " + BasicCredentials(username, password)]
    {
      self := WithAuthorization(Authorization.BASIC, BasicCredentials(username, password));
    }

    /** `withBearerAuthorization`: "Bearer " and the token. */
    method WithBearerAuthorization(token: string) returns (self: RequestContext)
      modifies this`request
      ensures self == this
      ensures request == old(request).(headers := Set(old(request).headers, AUTHORIZATION, [Authorization.BEARER + " " + token]))
      ensures MessageHeaders.Get(request.headers, AUTHORIZATION) == [Authorization.BEARER + " " + token]
    {
      self := WithAuthorization(Authorization.BEARER, token);
    }

    /** `withContentType`: the Content-Type header holds exactly the given type. */
    method WithContentType(contentType: string) returns (self: RequestContext)
      modifies this`request
      ensures self == this && request == old(request).(headers := Set(old(request).headers, CONTENT_TYPE, [contentType]))
      ensures ContextTrait.GetContentType(request.headers) == (if IsFalsy(contentType) then None else Some(contentType))
    {
      self := WithHeader(CONTENT_TYPE, [contentType]);
    }

    /** `asJson`: the content type is application/json, and JSON is the serialiser `run` picks. */
    method AsJson() returns (self: RequestContext)
      modifies this`request
      ensures self == this && request == old(request).(headers := Set(old(request).headers, CONTENT_TYPE, [MediaType.APPLICATION_JSON]))
      ensures ContextTrait.GetContentType(request.headers, true) == Some(MediaType.APPLICATION_JSON)
    {
      self := WithContentType(MediaType.APPLICATION_JSON);
      PlainMediaTypes();
      SingleContentType(request.headers, MediaType.APPLICATION_JSON);
    }

    /** `asXml`. */
    method AsXml() returns (self: RequestContext)
      modifies this`request
      ensures self == this && request == old(request).(headers := Set(old(request).headers, CONTENT_TYPE, [MediaType.TEXT_XML]))
      ensures ContextTrait.GetContentType(request.headers, true) == Some(MediaType.TEXT_XML)
    {
      self := WithContentType(MediaType.TEXT_XML);
      PlainMediaTypes();
      SingleContentType(request.headers, MediaType.TEXT_XML);
    }

    /** `asPlainText`. */
    method AsPlainText() returns (self: RequestContext)
      modifies this`request
      ensures self == this && request == old(request).(headers := Set(old(request).headers, CONTENT_TYPE, [MediaType.TEXT_PLAIN]))
      ensures ContextTrait.GetContentType(request.headers, true) == Some(MediaType.TEXT_PLAIN)
    {
      self := WithContentType(MediaType.TEXT_PLAIN);
      PlainMediaTypes();
      SingleContentType(request.headers, MediaType.TEXT_PLAIN);
    }

    /** `withBody`: stores the value as it is; the request is not touched. */
    method WithBody(body: Value) returns (self: RequestContext)
      modifies this`body
      ensures self == this && this.body == body
    {
      this.body := body;
      self := this;
    }

    method GetBody() returns (r: Value)
      ensures r == body
    {
      r := body;
    }

    /** `hasBody`: false exactly when no body is set. */
    method HasBody() returns (r: bool)
      ensures r <==> !body.Null?
    {
      r := !body.Null?;
    }

    /** `getHeader`: the values under the name in any casing; none for a missing header. */
    method GetHeader(name: string) returns (r: seq<string>)
      ensures r == MessageHeaders.Get(request.headers, name)
      ensures !Has(request.headers, name) ==> r == []
    {
      r := MessageHeaders.Get(request.headers, name);
    }

    /** `getHeaderLine`: the values joined by ", "; "" for a missing header. */
    method GetHeaderLine(name: string) returns (r: string)
      ensures r == Join(MessageHeaders.Get(request.headers, name), ", ")
      ensures !Has(request.headers, name) ==> r == ""
    {
      r := Line(request.headers, name);
    }

    /** `getHeaders`: the headers with the casing they were stored with. */
    method GetHeaders() returns (r: Headers)
      ensures r == request.headers
    {
      r := request.headers;
    }

    /** `getContentType`. */
    method GetContentType(omitEncoding: bool := false) returns (r: Option<string>)
      ensures r == ContextTrait.GetContentType(request.headers, omitEncoding)
    {
      r := ContextTrait.GetContentType(request.headers, omitEncoding);
    }

    /**
     * `run`: the request is prepared from the body (`Prepare`) and stored;
     * then the client is called once with it, and its response is wrapped
     * in a new response context.  When the serialiser raises, nothing is
     * stored and nothing is sent.
     */
    method Run() returns (r: Result<ResponseContext, Exception>)
      modifies this`request, client`sent
      ensures var prepared := Prepare(old(request), body, client.serializerRegistry.serializers);
              if prepared.Failure? then
                r == Failure(prepared.error) && request == old(request) && client.sent == old(client.sent)
              else
                request == prepared.value && client.sent == old(client.sent) + [prepared.value] &&
                var answer := Dispatch(prepared.value, client.driver.Answer(prepared.value));
                (answer.Failure? ==> r == Failure(answer.error)) &&
                (answer.Success? ==> r.Success? && fresh(r.value) && r.value.client == client &&
                                     r.value.response == answer.value && r.value.body == Null)
    {
      var prepared := Prepare(request, body, client.serializerRegistry.serializers);
      if prepared.Failure? {
        return Failure(prepared.error);
      }
      SetRequest(prepared.value);
      var answer := client.Request(prepared.value);
      if answer.Failure? {
        return Failure(answer.error);
      }
      var context := new ResponseContext(client, answer.value);
      r := Success(context);
    }
  }

  /** A response, with its parsed body kept once it is truthy. */
  class ResponseContext {
    const client: Wander
    var response: Response
    /** The cached parsed body; only a truthy value counts as cached. */
    var body: Value
    /** How often a serialiser's `extract` has been called. */
    ghost var extractions: nat

    constructor (client: Wander, response: Response)
      ensures this.client == client && this.response == response && body == Null && extractions == 0
    {
      this.client := client;
      this.response := response;
      body := Null;
      extractions := 0;
    }

    method GetResponse() returns (r: Response)
      ensures r == response
    {
      r := response;
    }

    /** `getStatusCode`: the status as the response holds it, with no range check. */
    method GetStatusCode() returns (r: int)
      ensures r == response.statusCode
    {
      r := response.statusCode;
    }

    method GetReasonPhrase() returns (r: string)
      ensures r == response.reasonPhrase
    {
      r := response.reasonPhrase;
    }

    method GetProtocolVersion() returns (r: string)
      ensures r == response.protocolVersion
    {
      r := response.protocolVersion;
    }

    method GetBody() returns (r: Stream)
      ensures r == response.body
    {
      r := response.body;
    }

    /** `getHeader`. */
    method GetHeader(name: string) returns (r: seq<string>)
      ensures r == MessageHeaders.Get(response.headers, name)
      ensures !Has(response.headers, name) ==> r == []
    {
      r := MessageHeaders.Get(response.headers, name);
    }

    /** `getHeaderLine`. */
    method GetHeaderLine(name: string) returns (r: string)
      ensures r == Join(MessageHeaders.Get(response.headers, name), ", ")
      ensures !Has(response.headers, name) ==> r == ""
    {
      r := Line(response.headers, name);
    }

    /** `getHeaders`. */
    method GetHeaders() returns (r: Headers)
      ensures r == response.headers
    {
      r := response.headers;
    }

    /** `getContentType`. */
    method GetContentType(omitEncoding: bool := false) returns (r: Option<string>)
      ensures r == ContextTrait.GetContentType(response.headers, omitEncoding)
    {
      r := ContextTrait.GetContentType(response.headers, omitEncoding);
    }

    /**
     * `parseBody`: `extract` of the serialiser for the response's content
     * type without parameters; the result is stored when it is not an
     * exception.  Status, reason, version and headers stay as they are;
     * the body stream is left where `extract` leaves it.
     */
    method ParseBody() returns (r: Result<Value, Exception>)
      modifies this`body, this`response, this`extractions
      ensures var (result, stream) := Extract(SerializerFor(old(response).headers, client.serializerRegistry.serializers), old(response));
              r == result && response == old(response).(body := stream) &&
              body == (if result.Success? then result.value else old(body))
      ensures extractions == old(extractions) + 1
    {
      var serializer := SerializerFor(response.headers, client.serializerRegistry.serializers);
      var (result, stream) := Extract(serializer, response);
      response := response.(body := stream);
      extractions := extractions + 1;
      if result.Success? {
        body := result.value;
      }
      r := result;
    }

    /**
     * `getParsedBody`: a truthy cached body is returned without parsing
     * again; a falsy one ("", "0", 0, false, null, []) is parsed again.
     */
    method GetParsedBody() returns (r: Result<Value, Exception>)
      modifies this`body, this`response, this`extractions
      ensures Truthy(old(body)) ==>
                r == Success(old(body)) && body == old(body) && response == old(response) && extractions == old(extractions)
      ensures !Truthy(old(body)) ==>
                var (result, stream) := Extract(SerializerFor(old(response).headers, client.serializerRegistry.serializers), old(response));
                r == result && response == old(response).(body := stream) &&
                body == (if result.Success? then result.value else old(body)) &&
                extractions == old(extractions) + 1
      ensures r.Success? && Truthy(r.value) ==> body == r.value
    {
      if !Truthy(body) {
        var parsed := ParseBody();
        if parsed.Failure? {
          return parsed;
        }
      }
      r := Success(body);
    }
  }

  /** Parsing leaves status, reason, version, headers and the body's bytes alone for the built-in serialisers. */
  lemma BuiltInParseKeepsResponse(s: Serializer, response: Response)
    requires !s.Custom?
    ensures var stream := Extract(s, response).1;
            stream.content == response.body.content && stream.Remaining() == ""
  {
  }

  predicate PlainMediaType(mediaType: string) {
    mediaType != "" && mediaType != "0" && ';' !in mediaType && IsTrimmed(mediaType)
  }

  /** The media types the response readers ask for carry no parameters and no surrounding blanks. */
  lemma PlainMediaTypes()
    ensures PlainMediaType(MediaType.APPLICATION_JSON)
    ensures PlainMediaType(MediaType.TEXT_XML)
    ensures PlainMediaType(MediaType.TEXT_PLAIN)
  {
  }

  /** A single parameterless media type is the content type with and without parameters stripped. */
  lemma SingleContentType(h: Headers, mediaType: string)
    requires PlainMediaType(mediaType)
    requires MessageHeaders.Get(h, CONTENT_TYPE) == [mediaType]
    ensures ContextTrait.GetContentType(h) == Some(mediaType)
    ensures ContextTrait.GetContentType(h, true) == Some(mediaType)
  {
    StripPlainMediaType(mediaType);
  }

  /** A plain-text body read a second time reads as "": the first read left the stream at its end. */
  lemma PlainTextReadTwice(response: Response)
    ensures var first := Extract(PlainText, response);
            Extract(PlainText, response.(body := first.1)).0 == Success(Str(""))
  {
    var c := response.body.content;
    assert c[|c|..] == "";
  }
}
