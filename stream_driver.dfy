/**
 * The decisions the stream driver takes around its network call: the
 * request headers and `http` context options it sends, the reading of the
 * status line, and the response headers it copies from the raw header
 * lines.
 */
module StreamDriver {
  import opened Wrappers
  import opened PhpStrings
  import opened MessageHeaders
  import opened Messages
  import opened Exceptions
  import opened Status
  import opened HttpMethod
  import opened Drivers

  /** `Wander::USER_AGENT`. */
  const USER_AGENT := "wander/1.0.0"

  /** The message of the `TypeError` PHP raises when strict-typed `trim` receives null. */
  const TRIM_NULL_ERROR := "trim(): Argument #1 ($string) must be of type string, null given"

  /** The `http` stream-context options; `timeout` is in milliseconds (see README). */
  datatype HttpOptions = HttpOptions(
    ignoreErrors: bool,
    protocolVersion: string,
    httpMethod: string,
    userAgent: string,
    followLocation: int,
    maxRedirects: Option<int>,
    timeout: Option<int>,
    content: Option<string>,
    header: seq<string>)

  /** A body goes on the wire only when it is non-empty and the method admits one. */
  predicate SendsBody(request: Request) {
    request.body.Size() > 0 && !MayNotIncludeBody(request.httpMethod)
  }

  /**
   * The headers of the request the driver sends: Host is the URI's host;
   * with a body, a missing Content-Length becomes the body size and a
   * missing Content-Type becomes "".
   */
  function WireHeaders(request: Request): Headers {
    var withHost := Set(request.headers, HOST, [request.uri.host]);
    if !SendsBody(request) then withHost
    else WithDefault(WithDefault(withHost, CONTENT_LENGTH, NatToString(request.body.Size())), CONTENT_TYPE, "")
  }

  /** The three header names the driver sets differ in length, hence in every casing. */
  lemma DistinctNames()
    ensures !SameName(HOST, CONTENT_LENGTH) && !SameName(HOST, CONTENT_TYPE) && !SameName(CONTENT_LENGTH, CONTENT_TYPE)
  {
    ToLowerChars(HOST);
    ToLowerChars(CONTENT_LENGTH);
    ToLowerChars(CONTENT_TYPE);
  }

  /**
   * The Host header is the URI's host; with a body, Content-Length and
   * Content-Type are present, the length being the body size unless the
   * caller gave one; no other header changes.
   */
  lemma WireHeadersFacts(request: Request)
    ensures MessageHeaders.Get(WireHeaders(request), HOST) == [request.uri.host]
    ensures forall n {:trigger MessageHeaders.Get(WireHeaders(request), n)} :: !SameName(n, HOST) && !SameName(n, CONTENT_LENGTH) && !SameName(n, CONTENT_TYPE) ==>
              MessageHeaders.Get(WireHeaders(request), n) == MessageHeaders.Get(request.headers, n)
    ensures !SendsBody(request) ==>
              forall n {:trigger MessageHeaders.Get(WireHeaders(request), n)} :: !SameName(n, HOST) ==> MessageHeaders.Get(WireHeaders(request), n) == MessageHeaders.Get(request.headers, n)
    ensures SendsBody(request) ==> Has(WireHeaders(request), CONTENT_LENGTH) && Has(WireHeaders(request), CONTENT_TYPE)
    ensures SendsBody(request) ==>
              MessageHeaders.Get(WireHeaders(request), CONTENT_LENGTH) ==
              if Has(request.headers, CONTENT_LENGTH) then MessageHeaders.Get(request.headers, CONTENT_LENGTH)
              else [NatToString(request.body.Size())]
    ensures SendsBody(request) ==>
              MessageHeaders.Get(WireHeaders(request), CONTENT_TYPE) ==
              if Has(request.headers, CONTENT_TYPE) then MessageHeaders.Get(request.headers, CONTENT_TYPE) else [""]
    ensures WellFormed(request.headers) ==> WellFormed(WireHeaders(request))
  {
    DistinctNames();
    var h := request.headers;
    var withHost := Set(h, HOST, [request.uri.host]);
    if SendsBody(request) {
      var withLength := WithDefault(withHost, CONTENT_LENGTH, NatToString(request.body.Size()));
      SetHas(h, HOST, [request.uri.host], CONTENT_LENGTH);
      SetHas(h, HOST, [request.uri.host], CONTENT_TYPE);
      WithDefaultHas(withHost, CONTENT_LENGTH, NatToString(request.body.Size()), CONTENT_TYPE);
      WithDefaultHas(withLength, CONTENT_TYPE, "", CONTENT_LENGTH);
    }
  }

  /**
   * The header changes the driver makes before sending: the Host header
   * first, then, for a request that carries a body, the default length and
   * type.
   */
  method WireRequest(request: Request) returns (sent: Request)
    ensures sent == request.(headers := WireHeaders(request))
  {
    var headers := Set(request.headers, HOST, [request.uri.host]);
    var bodyLength := request.body.Size();
    if bodyLength > 0 && !MayNotIncludeBody(request.httpMethod) {
      headers := WithDefault(headers, CONTENT_LENGTH, NatToString(bodyLength));
      headers := WithDefault(headers, CONTENT_TYPE, "");
    }
    sent := request.(headers := headers);
  }

  /**
   * The `http` options for a request under the driver's redirect and
   * timeout settings; `OptionsForEntries` states what each entry holds.
   */
  function OptionsFor(request: Request, followRedirects: bool, maximumRedirects: Option<int>, timeout: Option<int>)
    : HttpOptions
  {
    var maxRedirects := if followRedirects && maximumRedirects.Some? then maximumRedirects else None;
    var seconds := if timeout.Some? && timeout.value != 0 then timeout else None;
    var content := if SendsBody(request) then Some(request.body.ToString()) else None;
    HttpOptions(true, request.protocolVersion, request.httpMethod, USER_AGENT,
                if followRedirects then 1 else 0, maxRedirects, seconds, content, HeaderLines(WireHeaders(request)))
  }

  /**
   * What each `http` option holds: errors ignored, the request's protocol
   * and method, the user agent; follow_location 1 or 0; max_redirects only
   * when following with a limit; timeout only when one is set; content only
   * for a body that may be sent; header the marshalled wire headers.
   */
  lemma OptionsForEntries(request: Request, followRedirects: bool, maximumRedirects: Option<int>, timeout: Option<int>)
    ensures var o := OptionsFor(request, followRedirects, maximumRedirects, timeout);
            o.ignoreErrors && o.userAgent == USER_AGENT &&
            o.protocolVersion == request.protocolVersion && o.httpMethod == request.httpMethod &&
            o.followLocation == (if followRedirects then 1 else 0) &&
            o.maxRedirects == (if followRedirects && maximumRedirects.Some? then maximumRedirects else None) &&
            o.timeout == (if timeout.Some? && timeout.value != 0 then timeout else None) &&
            o.content == (if SendsBody(request) then Some(request.body.ToString()) else None) &&
            o.header == HeaderLines(WireHeaders(request))
  {
  }

  /**
   * The `http` options and the request the driver sends, built as the
   * source builds them: the fixed entries first, then the redirect limit,
   * the timeout and the body, then the header lines.
   */
  method PrepareOptions(request: Request, followRedirects: bool, maximumRedirects: Option<int>, timeout: Option<int>)
    returns (options: HttpOptions, sent: Request)
    ensures sent == request.(headers := WireHeaders(request))
    ensures options == OptionsFor(request, followRedirects, maximumRedirects, timeout)
  {
    sent := WireRequest(request);
    var maxRedirects := None;
    if followRedirects && maximumRedirects.Some? {
      maxRedirects := maximumRedirects;
    }
    var seconds := None;
    if timeout.Some? && timeout.value != 0 {
      seconds := timeout;
    }
    var content := None;
    if request.body.Size() > 0 && !MayNotIncludeBody(request.httpMethod) {
      content := Some(request.body.ToString());
    }
    var lines := MarshalHeaders(sent.headers);
    options := HttpOptions(true, request.protocolVersion, request.httpMethod, USER_AGENT,
                           if followRedirects then 1 else 0, maxRedirects, seconds, content, lines);
  }

  /**
   * What the network exchange reads back: the first line of
   * `$http_response_header`, the lines after it, and the body.
   */
  datatype Reply = Reply(statusLine: string, headerLines: seq<string>, content: string)

  /** PCRE's `\s`: space, tab, line feed, vertical tab, form feed, carriage return. */
  predicate IsSpace(c: char) {
    c == ' ' || c == '\t' || c == '\n' || c as int == 0x0B || c as int == 0x0C || c == '\r'
  }

  /** `[\d.]`. */
  predicate IsVersionChar(c: char) {
    IsDigit(c) || c == '.'
  }

  /** The end of the longest run of characters satisfying `p` from `i` on. */
  function Span(s: string, i: nat, p: char -> bool): (j: nat)
    requires i <= |s|
    ensures i <= j <= |s|
    ensures forall k :: i <= k < j ==> p(s[k])
    ensures j < |s| ==> !p(s[j])
    decreases |s| - i
  {
    if i == |s| || !p(s[i]) then i else Span(s, i + 1, p)
  }

  /** The text "HTTP/" starts at position `p`. */
  predicate HttpAt(s: string, p: nat) {
    p + 5 <= |s| && s[p..p + 5] == "HTTP/"
  }

  /** The groups of a successful match: version, status digits, and reason with its leading blank. */
  datatype StatusMatch = StatusMatch(version: string, status: string, reason: string)

  /**
   * `HTTP/([\d.]+)\S*\s(\d{3})(\s(.+))?` matched from position `p`.  The
   * version run is greedy and `\S*` takes the rest of the word, so the
   * blank before the status is the first blank after "HTTP/"; the reason
   * group, when it matches, runs to the end of the line.
   */
  function MatchAt(s: string, p: nat): (r: Option<StatusMatch>)
    requires p <= |s|
    ensures r.Some? ==> |r.value.status| == 3 && IsDigits(r.value.status) && r.value.version != ""
    ensures r.Some? && r.value.reason != "" ==> IsSpace(r.value.reason[0]) && |r.value.reason| >= 2
  {
    if !HttpAt(s, p) then None
    else
      var v := Span(s, p + 5, IsVersionChar);
      if v == p + 5 then None
      else
        var e := Span(s, v, c => !IsSpace(c));
        if !(e + 4 <= |s| && IsDigits(s[e + 1..e + 4])) then None
        else
          var reason :=
            if e + 5 < |s| && IsSpace(s[e + 4]) && s[e + 5] != '\n'
            then s[e + 4..Span(s, e + 5, c => c != '\n')]
            else "";
          Some(StatusMatch(s[p + 5..v], s[e + 1..e + 4], reason))
  }

  /** `preg_match`: the leftmost position at which the pattern matches. */
  function Search(s: string, p: nat): (r: Option<StatusMatch>)
    requires p <= |s|
    ensures r.Some? ==> |r.value.status| == 3 && IsDigits(r.value.status) && r.value.version != ""
    decreases |s| - p
  {
    match MatchAt(s, p)
    case Some(m) => Some(m)
    case None => if p == |s| then None else Search(s, p + 1)
  }

  /** The status line read as (version, status, reason); missing groups read as "". */
  function ParseStatusLine(line: string): (r: StatusMatch)
    ensures IsDigits(r.status)
    ensures r.status == "" || |r.status| == 3
  {
    assert IsDigits("");
    Search(line, 0).GetOr(StatusMatch("", "", ""))
  }

  /** `(int)$statusCode`. */
  function StatusCode(m: StatusMatch): nat
    requires IsDigits(m.status)
  {
    DigitsValue(m.status)
  }

  /** A falsy reason ("" or "0") falls back to the reason table, and to "" for an unknown code. */
  function ReasonPhrase(reason: string, code: int): (r: string)
    ensures !IsFalsy(reason) ==> r == reason
    ensures IsFalsy(reason) ==> r == GetMessage(code).GetOr("")
  {
    if IsFalsy(reason) then GetMessage(code).GetOr("") else reason
  }

  /**
   * A well-formed status line is read back into its parts, the reason
   * keeping the blank in front of it.
   */
  lemma StatusLineOfParts(version: string, status: string, reason: string)
    requires version != "" && forall i :: 0 <= i < |version| ==> IsVersionChar(version[i])
    requires |status| == 3 && IsDigits(status)
    requires reason != "" && '\n' !in reason
    ensures ParseStatusLine("HTTP/" + version + " " + status + " " + reason) == StatusMatch(version, status, " " + reason)
  {
    var s := "HTTP/" + version + " " + status + " " + reason;
    StatusLineMatches(version, status, reason);
    assert Search(s, 0) == MatchAt(s, 0);
  }

  /** The pattern matches a well-formed status line at its first character. */
  lemma StatusLineMatches(version: string, status: string, reason: string)
    requires version != "" && forall i :: 0 <= i < |version| ==> IsVersionChar(version[i])
    requires |status| == 3 && IsDigits(status)
    requires reason != "" && '\n' !in reason
    ensures var s := "HTTP/" + version + " " + status + " " + reason;
      MatchAt(s, 0) == Some(StatusMatch(version, status, " " + reason))
  {
    var s := "HTTP/" + version + " " + status + " " + reason;
    var v := 5 + |version|;
    assert s[0..5] == "HTTP/";
    assert HttpAt(s, 0);
    assert s[5..v] == version;
    assert Span(s, 5, IsVersionChar) == v by {
      SpanCovers(s, 5, v, IsVersionChar);
    }
    assert s[v] == ' ';
    assert Span(s, v, c => !IsSpace(c)) == v;
    assert s[v + 1..v + 4] == status;
    assert s[v + 4] == ' ';
    assert s[v + 5] == reason[0];
    assert Span(s, v + 5, c => c != '\n') == |s| by {
      assert forall k :: v + 5 <= k < |s| ==> s[k] == reason[k - v - 5];
      SpanCovers(s, v + 5, |s|, c => c != '\n');
    }
    assert s[v + 4..|s|] == " " + reason;
  }

  /** A run of characters satisfying `p` that ends at `j`, where none does, is what `Span` finds. */
  lemma {:induction false} SpanCovers(s: string, i: nat, j: nat, p: char -> bool)
    requires i <= j <= |s|
    requires forall k :: i <= k < j ==> p(s[k])
    requires j < |s| ==> !p(s[j])
    ensures Span(s, i, p) == j
    decreases j - i
  {
    if i < j {
      SpanCovers(s, i + 1, j, p);
    }
  }

  /** The usual line, "HTTP/1.1 200 OK", gives version 1.1, status 200 and reason " OK". */
  lemma StatusLineExample()
    ensures ParseStatusLine("HTTP/1.1 200 OK") == StatusMatch("1.1", "200", " OK")
  {
    assert "HTTP/1.1 200 OK" == "HTTP/" + "1.1" + " " + "200" + " " + "OK";
    StatusLineOfParts("1.1", "200", "OK");
  }

  /** Without a reason the table supplies one: "HTTP/1.1 204" reads as 204 "No Content". */
  lemma StatusLineWithoutReason()
    ensures ParseStatusLine("HTTP/1.1 204") == StatusMatch("1.1", "204", "")
    ensures ReasonPhrase("", 204) == "No Content"
  {
    var s := "HTTP/1.1 204";
    StatusLineWithoutReasonMatches();
    assert Search(s, 0) == MatchAt(s, 0);
  }

  lemma StatusLineWithoutReasonMatches()
    ensures MatchAt("HTTP/1.1 204", 0) == Some(StatusMatch("1.1", "204", ""))
  {
    var s := "HTTP/1.1 204";
    assert s[0..5] == "HTTP/";
    SpanCovers(s, 5, 8, IsVersionChar);
    assert s[5..8] == "1.1";
    assert Span(s, 8, c => !IsSpace(c)) == 8;
    assert s[9..12] == "204";
  }

  /** A line without any "HTTP/" reads as version "", status 0 and reason "". */
  lemma StatusLineWithoutMatch(line: string)
    requires forall p :: 0 <= p <= |line| ==> !HttpAt(line, p)
    ensures ParseStatusLine(line) == StatusMatch("", "", "")
    ensures StatusCode(ParseStatusLine(line)) == 0
  {
    NoMatchFrom(line, 0);
  }

  lemma {:induction false} NoMatchFrom(line: string, p: nat)
    requires p <= |line|
    requires forall q :: 0 <= q <= |line| ==> !HttpAt(line, q)
    ensures Search(line, p) == None
    decreases |line| - p
  {
    if p < |line| {
      NoMatchFrom(line, p + 1);
    }
  }

  /**
   * The response built from the status line and the body read, before any
   * header: `createResponse((int)$statusCode, $reasonPhrase)`, then the
   * protocol version and the body.
   */
  function StatusResponse(statusLine: string, content: string): Response {
    var m := ParseStatusLine(statusLine);
    var code := StatusCode(m);
    Response(code, ReasonPhrase(m.reason, code), [], m.version, CreateStream(content))
  }

  /** A well-formed status line gives its status code, version and reason, the reason with its leading blank. */
  lemma StatusResponseOfParts(version: string, status: string, reason: string, content: string)
    requires version != "" && forall i :: 0 <= i < |version| ==> IsVersionChar(version[i])
    requires |status| == 3 && IsDigits(status)
    requires reason != "" && '\n' !in reason
    ensures var r := StatusResponse("HTTP/" + version + " " + status + " " + reason, content);
            r.statusCode == DigitsValue(status) && r.reasonPhrase == " " + reason && r.protocolVersion == version &&
            r.headers == [] && r.body.ToString() == content
  {
    StatusLineOfParts(version, status, reason);
  }

  /** A line that is not a status line gives status 0, the empty reason and the empty version. */
  lemma StatusResponseWithoutMatch(line: string, content: string)
    requires forall p :: 0 <= p <= |line| ==> !HttpAt(line, p)
    ensures var r := StatusResponse(line, content);
            r.statusCode == 0 && r.reasonPhrase == "" && r.protocolVersion == ""
  {
    StatusLineWithoutMatch(line);
    assert !IsNamed(0);
  }

  /**
   * `explode(':', $line)` read into `[$name, $value]`: the name is the text
   * before the first ':', untrimmed; the value is the text between the
   * first and the second ':', trimmed.  `None` for a line without ':',
   * whose missing value makes `trim` raise.
   */
  function SplitHeaderLine(line: string): (r: Option<(string, string)>)
    ensures r.None? <==> ':' !in line
    ensures r.Some? ==> ':' !in r.value.0 && ':' !in r.value.1 && IsTrimmed(r.value.1)
  {
    var (name, rest) := SplitFirst(line, ':');
    if rest.None? then None
    else
      var value := SplitFirst(rest.value, ':').0;
      TrimSubset(value, ':');
      Some((name, Trim(value)))
  }

  /** A line as the drivers marshal it, "name: value", splits back into name and value. */
  lemma SplitMarshalledLine(name: string, value: string)
    requires ':' !in name && ':' !in value && IsTrimmed(value)
    ensures SplitHeaderLine(name + ": " + value) == Some((name, value))
  {
    assert name + ": " + value == name + [':'] + (" " + value);
    SplitFirstAt(name, ':', " " + value);
    assert ':' !in " " + value;
    TrimBlankThenTrimmed(value);
  }

  /** Trimming a blank followed by a trimmed text gives the text. */
  lemma TrimBlankThenTrimmed(value: string)
    requires IsTrimmed(value)
    ensures Trim(" " + value) == value
  {
    var s := " " + value;
    assert s[1..] == value;
    if |value| > 0 {
      assert LeadingTrim(s[1..]) == 0;
      assert LeadingTrim(s) == 1;
      assert TrailingTrim(value) == 0;
    } else {
      assert LeadingTrim(s) == 1;
    }
  }

  /**
   * The value stops at the second ':', so a line such as
   * "Date: Mon, 01 Jan 2020 10:00:00 GMT" keeps only "Mon, 01 Jan 2020 10".
   */
  lemma ValueStopsAtSecondColon(name: string, value: string, tail: string)
    requires ':' !in name && ':' !in value && IsTrimmed(value)
    ensures SplitHeaderLine(name + ": " + value + ":" + tail) == Some((name, value))
  {
    assert name + ": " + value + ":" + tail == name + [':'] + (" " + value + [':'] + tail);
    SplitFirstAt(name, ':', " " + value + [':'] + tail);
    assert ':' !in " " + value;
    SplitFirstAt(" " + value, ':', tail);
    TrimBlankThenTrimmed(value);
  }

  /** Every raw header line split into name and value, or `None` as soon as one has no ':'. */
  function SplitLines(lines: seq<string>): (r: Option<seq<(string, string)>>)
    ensures r.Some? <==> AllHaveColon(lines)
    ensures r.Some? ==> |r.value| == |lines|
    decreases |lines|
  {
    if lines == [] then Some([])
    else
      var init := lines[..|lines| - 1];
      var last := lines[|lines| - 1];
      AllHaveColonSnoc(init, last);
      assert init + [last] == lines;
      match SplitLines(init)
      case None => None
      case Some(fields) =>
        match SplitHeaderLine(last)
        case None => None
        case Some(field) => Some(fields + [field])
  }

  /** Every line holds a ':'. */
  predicate AllHaveColon(lines: seq<string>) {
    forall i :: 0 <= i < |lines| ==> ':' in lines[i]
  }

  lemma AllHaveColonSnoc(lines: seq<string>, last: string)
    ensures AllHaveColon(lines + [last]) <==> AllHaveColon(lines) && ':' in last
  {
    var all := lines + [last];
    assert all[|lines|] == last;
    assert forall i :: 0 <= i < |lines| ==> all[i] == lines[i];
  }

  /** `withHeader` applied to each field in turn. */
  function SetFields(h: Headers, fields: seq<(string, string)>): Headers
    decreases |fields|
  {
    if fields == [] then h
    else
      var (name, value) := fields[|fields| - 1];
      Set(SetFields(h, fields[..|fields| - 1]), name, [value])
  }

  /**
   * The response once every raw header line is applied with `withHeader`,
   * or the `TypeError` of the first line without ':' (the partly updated
   * response is then discarded, as the source's immutable messages are).
   */
  function WithResponseHeaders(response: Response, lines: seq<string>): (r: Result<Response, Exception>)
    ensures r.Success? <==> forall i :: 0 <= i < |lines| ==> ':' in lines[i]
    ensures r.Failure? ==> r.error == TypeError(TRIM_NULL_ERROR)
    ensures r.Success? ==> r.value == response.(headers := r.value.headers)
  {
    match SplitLines(lines)
    case None => Failure(TypeError(TRIM_NULL_ERROR))
    case Some(fields) => Success(response.(headers := SetFields(response.headers, fields)))
  }

  /** Applying fields keeps a header list free of repeated names. */
  lemma {:induction false} SetFieldsWellFormed(h: Headers, fields: seq<(string, string)>)
    requires WellFormed(h)
    ensures WellFormed(SetFields(h, fields))
    decreases |fields|
  {
    if fields != [] {
      SetFieldsWellFormed(h, fields[..|fields| - 1]);
    }
  }

  /** A header that no field names keeps the value it had. */
  lemma {:induction false} SetFieldsUntouched(h: Headers, fields: seq<(string, string)>, name: string)
    requires forall i :: 0 <= i < |fields| ==> !SameName(fields[i].0, name)
    ensures Get(SetFields(h, fields), name) == Get(h, name)
    decreases |fields|
  {
    if fields != [] {
      var init := fields[..|fields| - 1];
      assert forall i :: 0 <= i < |init| ==> init[i] == fields[i];
      SetFieldsUntouched(h, init, name);
    }
  }

  /** A header holds the value of the last field that names it, in whatever casing. */
  lemma {:induction false} SetFieldsLast(h: Headers, fields: seq<(string, string)>, i: nat, name: string)
    requires i < |fields| && SameName(fields[i].0, name)
    requires forall j :: i < j < |fields| ==> !SameName(fields[j].0, name)
    ensures Get(SetFields(h, fields), name) == [fields[i].1]
    decreases |fields|
  {
    var init := fields[..|fields| - 1];
    var (n, v) := fields[|fields| - 1];
    if i == |fields| - 1 {
      GetIgnoresCase(SetFields(h, fields), n, name);
    } else {
      assert forall j :: i < j < |init| ==> init[j] == fields[j];
      SetFieldsLast(h, init, i, name);
    }
  }

  /** A later line for the same name replaces every earlier value: `withHeader`, not `withAddedHeader`. */
  lemma LastLineWins(response: Response, lines: seq<string>, line: string, name: string, value: string)
    requires WithResponseHeaders(response, lines).Success?
    requires SplitHeaderLine(line) == Some((name, value))
    ensures WithResponseHeaders(response, lines + [line]).Success?
    ensures Get(WithResponseHeaders(response, lines + [line]).value.headers, name) == [value]
  {
    var all := lines + [line];
    assert all[..|all| - 1] == lines;
    var fields := SplitLines(lines).value;
    assert SplitLines(all) == Some(fields + [(name, value)]);
    SetFieldsLast(response.headers, fields + [(name, value)], |fields|, name);
  }

  /** The headers of a successful read keep a header list free of repeated names. */
  lemma WithResponseHeadersWellFormed(response: Response, lines: seq<string>)
    requires WellFormed(response.headers)
    requires WithResponseHeaders(response, lines).Success?
    ensures WellFormed(WithResponseHeaders(response, lines).value.headers)
  {
    SetFieldsWellFormed(response.headers, SplitLines(lines).value);
  }

  /** `foreach ($responseHeaders as $headerLine)`: applies the lines one by one, stopping at the first that raises. */
  method ApplyResponseHeaders(response: Response, lines: seq<string>) returns (r: Result<Response, Exception>)
    ensures r == WithResponseHeaders(response, lines)
  {
    var current := response;
    var i := 0;
    while i < |lines|
      invariant 0 <= i <= |lines|
      invariant SplitLines(lines[..i]).Some?
      invariant current == response.(headers := SetFields(response.headers, SplitLines(lines[..i]).value))
    {
      var prefix := lines[..i + 1];
      assert prefix[..|prefix| - 1] == lines[..i] && prefix[|prefix| - 1] == lines[i];
      var split := SplitHeaderLine(lines[i]);
      if split.None? {
        assert ':' !in lines[i];
        assert !AllHaveColon(lines);
        r := Failure(TypeError(TRIM_NULL_ERROR));
        return;
      }
      var (name, value) := split.value;
      ghost var fields := SplitLines(lines[..i]).value;
      ghost var extended := fields + [(name, value)];
      assert SplitLines(prefix) == Some(extended);
      assert extended[..|extended| - 1] == fields && extended[|extended| - 1] == (name, value);
      assert SetFields(response.headers, extended) == Set(SetFields(response.headers, fields), name, [value]);
      current := current.(headers := Set(current.headers, name, [value]));
      i := i + 1;
    }
    assert lines[..i] == lines;
    r := Success(current);
  }

  /**
   * The response the driver returns for the raw header section (its first
   * line the status line) and the body read.
   */
  method ReadResponse(statusLine: string, headerLines: seq<string>, content: string) returns (r: Result<Response, Exception>)
    ensures r == WithResponseHeaders(StatusResponse(statusLine, content), headerLines)
    ensures r.Success? ==> r.value.statusCode == StatusResponse(statusLine, content).statusCode &&
                           r.value.reasonPhrase == StatusResponse(statusLine, content).reasonPhrase &&
                           r.value.body == CreateStream(content)
  {
    var response := StatusResponse(statusLine, content);
    r := ApplyResponseHeaders(response, headerLines);
  }
}
