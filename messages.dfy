/**
 * The PSR-7 values the client passes around: URIs, body streams, requests
 * and responses.  Messages are immutable; every `with...` call of PSR-7
 * is a record update here.
 */
module Messages {
  import opened Wrappers
  import opened PhpStrings
  import opened MessageHeaders

  const HOST := "Host"
  const AUTHORIZATION := "Authorization"
  const CONTENT_TYPE := "Content-Type"
  const CONTENT_LENGTH := "Content-Length"

  /** A URI; `port` is `None` where PSR-7's `getPort` reports none (a scheme's default port). */
  datatype Uri = Uri(scheme: string, host: string, port: Option<nat>, path: string, query: string, fragment: string)

  /** A body stream: its bytes and the read position. */
  datatype Stream = Stream(content: string, position: nat) {
    /** `getSize`. */
    function Size(): nat {
      |content|
    }

    /** `__toString`: rewinds and reads everything. */
    function ToString(): string {
      content
    }

    /** `getContents`: what is left from the read position on. */
    function Remaining(): string {
      if position <= |content| then content[position..] else ""
    }

    /** The stream once `getContents` has read it to the end. */
    function Drained(): Stream {
      Stream(content, |content|)
    }
  }

  /** `Stream::create($text)`: a stream holding `text`, at its start. */
  function CreateStream(text: string): Stream {
    Stream(text, 0)
  }

  datatype Request = Request(httpMethod: string, uri: Uri, headers: Headers, protocolVersion: string, body: Stream)

  datatype Response = Response(statusCode: int, reasonPhrase: string, headers: Headers, protocolVersion: string, body: Stream)

  /**
   * A PSR-17 factory.  Only its identity is modelled; every factory makes
   * requests as the bundled `Psr17Factory` does (`CreateRequest`).
   */
  class Psr17Factory {
    constructor () {
    }
  }

  /** The Host header value PSR-7 derives from a URI: the host, and the port when there is one. */
  function HostOf(uri: Uri): string {
    match uri.port
    case None => uri.host
    case Some(p) => uri.host + ":" + NatToString(p)
  }

  /**
   * `createRequest($method, $uri)`: protocol 1.1, an empty body, and a
   * Host header taken from the URI when it names a host.
   */
  function CreateRequest(httpMethod: string, uri: Uri): (r: Request)
    ensures r.httpMethod == httpMethod && r.uri == uri && r.body.Size() == 0
    ensures uri.host != "" ==> Get(r.headers, HOST) == [HostOf(uri)] && |r.headers| == 1
    ensures uri.host == "" ==> r.headers == []
  {
    var headers := if uri.host == "" then [] else [Header(HOST, [HostOf(uri)])];
    assert uri.host != "" ==> Find(headers, HOST) == Some(0);
    Request(httpMethod, uri, headers, "1.1", CreateStream(""))
  }
}
