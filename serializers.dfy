/**
 * Serialisers turn a pending body into a request body (`apply`) and a
 * response body into a value (`extract`).  The three built-in kinds are
 * modelled; the JSON extension and user-written serialisers stand outside
 * the model as functions handed in.
 */
module Serializers {
  import opened Wrappers
  import opened PhpStrings
  import opened PhpArrays
  import opened Messages
  import opened Exceptions
  import opened Values
  import opened FormEncoding

  /** PHP's `JSON_THROW_ON_ERROR` flag. */
  const JSON_THROW_ON_ERROR: bv64 := 0x40_0000

  /** `json_decode` is asked for associative arrays, to a nesting depth of 512. */
  const JSON_DECODE_DEPTH := 512

  /**
   * The JSON extension: `json_encode($value, $flags)` and
   * `json_decode($json, $associative, $depth, $flags)`.  Flags are the
   * bits of a PHP integer.
   */
  datatype JsonLibrary = JsonLibrary(
    encode: (Value, bv64) -> Result<string, Exception>,
    decode: (string, bool, int, bv64) -> Result<Value, Exception>)

  datatype Serializer =
    | Json(library: JsonLibrary, encodeFlags: Option<bv64> := None, decodeFlags: Option<bv64> := None)
    | PlainText
    | UrlEncoded
    /** A user's `SerializerInterface`; `extract` also returns the body stream as it leaves it. */
    | Custom(name: string, apply: (Request, Value) -> Result<Request, Exception>,
             extract: Response -> (Result<Value, Exception>, Stream))

  /** `($flags ?? 0) | JSON_THROW_ON_ERROR`. */
  function WithThrowOnError(flags: Option<bv64>): (r: bv64)
    ensures r & JSON_THROW_ON_ERROR == JSON_THROW_ON_ERROR
    ensures r & !JSON_THROW_ON_ERROR == flags.GetOr(0) & !JSON_THROW_ON_ERROR
  {
    flags.GetOr(0) | JSON_THROW_ON_ERROR
  }

  /** The request with a new body stream holding `text`; nothing else changes. */
  function WithBodyText(request: Request, text: string): (r: Request)
    ensures r.body.ToString() == text && r.body.position == 0
    ensures r.(body := request.body) == request
  {
    request.(body := CreateStream(text))
  }

  /** `PlainTextSerializer::apply`: the body cast to a string. */
  function PlainTextApply(request: Request, body: Value): (r: Result<Request, Exception>)
    ensures r.Success? <==> StringCast(body).Success?
    ensures r.Success? ==> r.value == WithBodyText(request, StringCast(body).value)
    ensures body.Str? ==> r == Success(WithBodyText(request, body.s))
  {
    match StringCast(body)
    case Success(text) => Success(WithBodyText(request, text))
    case Failure(e) => Failure(e)
  }

  /** The entries `http_build_query` walks: an array's entries, an object's public properties. */
  function FormFields(body: Value): seq<(string, Scalar)>
    requires body.Arr? || body.Obj? || body.StreamBody?
  {
    match body
    case Arr(entries) => entries
    case Obj(_, properties, _) => properties
    case StreamBody(_) => []
  }

  /**
   * `UrlEncodedSerializer::apply`: anything but an array or an object is
   * refused before anything is built; otherwise the body is the query
   * string of its fields.
   */
  function UrlEncodedApply(request: Request, body: Value): (r: Result<Request, Exception>)
    ensures r.Failure? <==> !(body.Arr? || body.Obj? || body.StreamBody?)
    ensures r.Failure? ==> r.error == InvalidArgument("Only arrays or objects may be URL encoded")
    ensures r.Success? ==> r.value == WithBodyText(request, BuildQuery(FormFields(body)))
  {
    if !(body.Arr? || body.Obj? || body.StreamBody?) then
      Failure(InvalidArgument("Only arrays or objects may be URL encoded"))
    else
      Success(WithBodyText(request, BuildQuery(FormFields(body))))
  }

  /** `apply` of any serialiser. */
  function Apply(s: Serializer, request: Request, body: Value): Result<Request, Exception> {
    match s
    case Json(library, encodeFlags, _) =>
      (match library.encode(body, WithThrowOnError(encodeFlags))
       case Success(text) => Success(WithBodyText(request, text))
       case Failure(e) => Failure(e))
    case PlainText => PlainTextApply(request, body)
    case UrlEncoded => UrlEncodedApply(request, body)
    case Custom(_, apply, _) => apply(request, body)
  }

  /**
   * `extract` of any serialiser, with the body stream as it is left.  The
   * built-in ones read the rest of the body with `getContents`, which
   * leaves the stream at its end.
   */
  function Extract(s: Serializer, response: Response): (r: (Result<Value, Exception>, Stream))
    ensures !s.Custom? ==> r.1 == response.body.Drained()
  {
    var text := response.body.Remaining();
    match s
    case Json(library, _, decodeFlags) =>
      (library.decode(text, true, JSON_DECODE_DEPTH, WithThrowOnError(decodeFlags)), response.body.Drained())
    case PlainText => (Success(Str(text)), response.body.Drained())
    case UrlEncoded => (Success(Arr(Lift(ParseQuery(text)))), response.body.Drained())
    case Custom(_, _, extract) => extract(response)
  }

  /** What the plain-text serialiser writes for a string, it reads back unchanged. */
  lemma PlainTextRoundTrip(request: Request, text: string, response: Response)
    requires Apply(PlainText, request, Str(text)).Success?
    requires response.body == Apply(PlainText, request, Str(text)).value.body
    ensures Extract(PlainText, response).0 == Success(Str(text))
  {
  }

  /**
   * What the URL-encoded serialiser writes for a flat array it reads back
   * as that array with null entries dropped and every value as text.
   */
  lemma UrlEncodedRoundTrip(request: Request, entries: seq<(string, Scalar)>, response: Response)
    requires UniqueKeys(entries)
    requires forall i :: 0 <= i < |entries| ==> entries[i].0 != ""
    requires response.body == Apply(UrlEncoded, request, Arr(entries)).value.body
    ensures Extract(UrlEncoded, response).0 == Success(Arr(Lift(Stringified(entries))))
  {
    var query := BuildQuery(entries);
    assert Apply(UrlEncoded, request, Arr(entries)) == Success(WithBodyText(request, query));
    assert response.body == CreateStream(query);
    assert response.body.Remaining() == query;
    ParseBuild(entries);
  }

  /** The JSON serialiser always calls the extension with `JSON_THROW_ON_ERROR` set, and the caller's other flags. */
  lemma JsonThrowsOnError(library: JsonLibrary, encodeFlags: Option<bv64>, decodeFlags: Option<bv64>,
                          request: Request, body: Value, response: Response)
    ensures Apply(Json(library, encodeFlags, decodeFlags), request, body).Success? <==>
            library.encode(body, WithThrowOnError(encodeFlags)).Success?
    ensures Extract(Json(library, encodeFlags, decodeFlags), response).0 ==
            library.decode(response.body.Remaining(), true, 512, WithThrowOnError(decodeFlags))
  {
  }
}
