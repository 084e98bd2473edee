# wander in Dafny

This is a model of the PHP HTTP client *wander*, with proofs about it.

The client builds requests through a fluent **request context**. The context wraps an immutable PSR-7 request and holds a body that is not serialised yet. `run()` does four things:

- it picks a serialiser from the request's Content-Type, with any parameters stripped;
- it applies that serialiser to the body;
- it hands the request to a **driver** exactly once;
- it wraps the answer in a **response context**, which parses the response body on demand and keeps a truthy result.

The client raises a response error for every status from 400 to 599.

Around this core the model covers:

- the **status table** and its classifiers;
- the GET/HEAD **body rule**;
- the **exception** records;
- the **timeout** and **redirect** settings;
- the **serialiser registry** and the plain-text and form-encoded **serialisers**;
- the **decision code of the two drivers**: the header and option preparation of the stream driver, its status-line and header-line parsing, the curl driver's method switch, header callback and error classification.

## How the model is built

**Entities.** Value objects are datatypes:

- requests, responses, URIs and streams (`Messages`);
- exceptions (`Exceptions`);
- pending bodies (`Values`);
- serialisers (`Serializers`).

Objects whose fields the source reassigns are classes, whose methods carry `modifies` clauses:

- `Client.Wander`, `Client.RequestContext` and `Client.ResponseContext`;
- `Registry.SerializerRegistry`;
- `TimeoutFeature.Timeouts` and `RedirectsFeature.Redirects`;
- `Transport.Driver`;
- `CurlDriver.HeaderCollector`, for the header callback's by-reference array.

**Loops.** Each loop of the source is a `while` loop proved against a function:

- `marshalHeaders`;
- `withHeaders`;
- the header loops of both drivers.

**PHP semantics written out rather than assumed:**

- **Falsiness**: "", "0", 0, false, null and [] are falsy.
- **`trim`'s character set** (`PhpStrings.Trim`).
- **`strtolower`**: ASCII only.
- **`strtok`**: it skips leading delimiters.
- **`explode`**: with and without a limit.
- **`urlencode`/`urldecode`**, and `http_build_query`/`parse_str` on flat arrays (`FormEncoding`).
- **`base64_encode`**: section 4 of RFC 4648 (`Base64`).
- **Header semantics**: the ordered, case-insensitive header list of the PSR-7 implementation (`MessageHeaders`). `withHeader` removes and then appends; `withAddedHeader` keeps the casing and position.
- **PCRE**: the status-line regular expression, searched from the leftmost position.

**Quirks of the source kept as they are:**

- a falsy parsed body is not cached, so the next `getParsedBody` parses again (`Client.ResponseContext.GetParsedBody`);
- only 400–599 count as error statuses (`Client.DispatchResponse`);
- `post`, `put` and `patch` drop a falsy body (`Client.Wander.Post`);
- stripping the content type uses `strtok`, which skips a leading ';' (`ContextTrait.StripParametersSkipsLeadingSeparator`);
- the stream driver's reason phrase keeps its leading blank (`StreamDriver.StatusLineExample`);
- the stream driver cuts a header value at its second ':' (`StreamDriver.ValueStopsAtSecondColon`);
- the reason table gives 412 the phrase "Precondition Required" and 428 no phrase (`Status.PreconditionPhrases`).

**What stays outside the model.** Collaborators that the model cannot see become parameters:

- the driver's network exchange (`Transport.Exchange`): what travels over the wire for the options and the request the driver prepared, and what comes back;
- the JSON extension (`Serializers.JsonLibrary`);
- user-written serialisers (`Serializers.Custom`).

The client records every request it hands to the driver in the ghost log `Wander.sent`. This is how "the client is called exactly once" is stated.

## Model

| member | source | states |
|---|---|---|
| Status.GetMessage | src/Http/Status.php:613-616 | a code has a non-empty phrase exactly when the table names it; 428 is named but has none, so it reads null |
| Status.GetErrorCodes | src/Http/Status.php:467-510 | the keys are exactly the error codes that have a phrase, and each value is that code's phrase from the reason table; the order of the source's array is not kept |
| Status.ClassesPartition | src/Http/Status.php:541-604 | isError is isClientError or isServerError; the five classes are pairwise disjoint and together cover exactly 100–599 |
| Status.ValidAgainstMessages | src/Http/Status.php:519-532 | every code with a phrase is valid except 418; the valid codes without a phrase are exactly 306, 427, 428, 430 and 509; a valid code lies in 100–511 |
| Status.PreconditionPhrases | src/Http/Status.php:205 | as written, 412 reads "Precondition Required" and 428, a valid code, has no phrase; getErrorCodes has 412 with that phrase and no 428 |
| HttpMethod.BodylessMethods | src/Http/Method.php:264-271 | mayNotIncludeBody holds exactly for "GET" and "HEAD", compared case-sensitively, so "get", POST and DELETE give false |
| Exceptions.ResponseErrorCarries | src/Exceptions/ResponseErrorException.php:14-35 | getRequest and getResponse give back the constructor's arguments; the code is the status; the message is "Request failed with status " and the status |
| Exceptions.DetailFollowsPrefix | src/Exceptions/DriverException.php:15-36 | the driver, connection and certificate exceptions each put their fixed prefix before the detail; the default driver exception reads "Failed to create request: " with code 0 |
| Exceptions.UnresolvableHostIsDriverError | src/Exceptions/UnresolvableHostException.php:12-24 | it is a driver exception; its message, code (0), previous exception and request are those of a driver exception whose detail is "Could not resolve host '<host>'" |
| Values.StringCast | src/Serializers/PlainTextSerializer.php:29-32 | a cast fails exactly for an object without `__toString`; a string casts to itself; null and false cast to "" |
| TimeoutFeature.TimeoutCheck | src/Drivers/Features/TimeoutTrait.php:15-32 | an amount is accepted exactly when it is null or positive; 0 raises the InvalidArgumentException and a negative amount raises the RangeException, each with the source's message |
| TimeoutFeature.Timeouts.constructor | src/Drivers/Features/TimeoutTrait.php:10 | the timeout starts as null |
| TimeoutFeature.Timeouts.SetTimeout | src/Drivers/Features/TimeoutTrait.php:15-32 | the result is the check's verdict; an accepted amount is stored; a refused one leaves the old value; the stored value stays null or positive |
| TimeoutFeature.Timeouts.GetTimeout | src/Drivers/Features/TimeoutTrait.php:37-40 | returns the stored value, which is null or positive |
| RedirectsFeature.RedirectLimitCheck | src/Drivers/Features/RedirectsTrait.php:40-49 | a limit is accepted exactly when it is null or at least 0; otherwise the RangeException with the source's message is raised |
| RedirectsFeature.Redirects.constructor | src/Drivers/Features/RedirectsTrait.php:9-11 | redirects start out followed, with no limit |
| RedirectsFeature.Redirects.FollowRedirects | src/Drivers/Features/RedirectsTrait.php:16-19 | sets the flag (the argument defaults to true) and may change nothing else |
| RedirectsFeature.Redirects.IsFollowRedirectsEnabled | src/Drivers/Features/RedirectsTrait.php:24-27 | returns the flag |
| RedirectsFeature.Redirects.SetMaximumRedirects | src/Drivers/Features/RedirectsTrait.php:40-49 | an accepted limit, including 0 and null, is stored; a negative one leaves the old value; only the limit field may change |
| RedirectsFeature.Redirects.GetMaximumRedirects | src/Drivers/Features/RedirectsTrait.php:32-35 | returns the stored limit, which is never negative |
| Registry.Lookup | src/SerializerRegistry.php:28-31 | finds a serialiser exactly when the media type is a key, and then the one stored under it |
| Registry.SerializerRegistry.constructor | src/SerializerRegistry.php:13 | a fresh registry resolves every media type to null |
| Registry.SerializerRegistry.Register | src/SerializerRegistry.php:18-23 | afterwards the media type resolves to the new serialiser, and every other media type resolves as before |
| Registry.SerializerRegistry.Resolve | src/SerializerRegistry.php:28-31 | returns the lookup of exactly that key |
| Registry.RegisterOverwrites | src/SerializerRegistry.php:22 | registering twice under one media type is the same as registering only the second serialiser |
| Registry.ExactMatch | src/SerializerRegistry.php:30 | a key that differs from the registered one in any way, parameters included, finds nothing |
| Serializers.WithThrowOnError | src/Serializers/JsonSerializer.php:51 | JSON_THROW_ON_ERROR is always set, and every other bit is the caller's flags (0 when none) |
| Serializers.JsonThrowsOnError | src/Serializers/JsonSerializer.php:45-76 | apply and extract call the JSON extension with throw-on-error set and the caller's other flags; extract asks for associative arrays at depth 512 |
| Serializers.WithBodyText | src/Serializers/PlainTextSerializer.php:32 | the new body reads as the text, from its start, and every other part of the request is unchanged |
| Serializers.PlainTextApply | src/Serializers/PlainTextSerializer.php:25-33 | succeeds exactly when the body casts to a string, and then replaces only the body with the cast; a string body is sent byte for byte |
| Serializers.UrlEncodedApply | src/Serializers/UrlEncodedSerializer.php:31-45 | refuses, with the source's InvalidArgumentException, exactly the bodies that are neither arrays nor objects; otherwise only the body changes, to the form encoding of the fields |
| Serializers.Extract | src/Serializers/UrlEncodedSerializer.php:51-62 | a built-in serialiser reads the rest of the body and leaves the stream at its end |
| Serializers.PlainTextRoundTrip | src/Serializers/PlainTextSerializer.php:29-42 | a string that the plain-text serialiser writes, it reads back unchanged |
| Serializers.UrlEncodedRoundTrip | src/Serializers/UrlEncodedSerializer.php:41-61 | a flat array that the form serialiser writes reads back as the same array, with null entries dropped and every value as text |
| FormEncoding.UrlEncode | src/Context/RequestContext.php:540-543 | the encoding holds no '&' or '='; it is non-empty for non-empty input |
| FormEncoding.UrlDecodeEncode | src/Context/RequestContext.php:540-565 | urldecode undoes urlencode for every string |
| FormEncoding.Pairs | src/Context/RequestContext.php:540-543 | every key=value piece http_build_query writes is non-empty and holds no '&' |
| FormEncoding.Lift | src/Context/RequestContext.php:162-169 | a string array is the same array of string scalars, entry for entry |
| FormEncoding.ParseQueryWellFormed | src/Context/RequestContext.php:557-565 | what parse_str produces has no key twice and no empty key |
| FormEncoding.StringifiedKeys | src/Context/RequestContext.php:557-565 | a key that the written array lacks is not in what reads back |
| FormEncoding.RegisterPairsOfPairs | src/Context/RequestContext.php:540-565 | reading back the written pieces one by one gives each non-null entry as text |
| FormEncoding.ParseBuild | src/Context/RequestContext.php:540-565 | parse_str of http_build_query gives the non-null entries, in order, as text |
| FormEncoding.StringifiedLift | src/Context/RequestContext.php:162-183 | writing a string array and reading it back changes nothing |
| FormEncoding.GetStringified | src/Context/RequestContext.php:235-240 | looking a key up in what reads back gives the text of its written value (none for null or absent) |
| FormEncoding.GetLift | src/Context/RequestContext.php:197-207 | looking a key up in a lifted array gives its string as a scalar |
| FormEncoding.UniqueKeysLift | src/Context/RequestContext.php:197-207 | lifting keeps the keys distinct |
| QueryParameters.Decode | src/Context/RequestContext.php:178-183 | the parameters of any query form an array that http_build_query and parse_str agree on |
| QueryParameters.DecodeEncoded | src/Context/RequestContext.php:162-183 | parameters stored with withQueryParameters read back as their non-null entries, as text, key by key |
| QueryParameters.DecodeReencoded | src/Context/RequestContext.php:197-224 | re-encoding what a query decodes to reads back the same parameters |
| QueryParameters.ParameterAfterSet | src/Context/RequestContext.php:197-207 | after withQueryParameter(n, v), n reads as v's text ("1" for true, "42" for 42, none for null) and every other parameter is unchanged |
| QueryParameters.NullParameterOnEmptyQuery | src/Context/RequestContext.php:197-207 | setting a null parameter on an empty query leaves the query "" |
| QueryParameters.ParameterAfterUnset | src/Context/RequestContext.php:217-224 | after withoutQueryParameter(n), n is gone and the others are unchanged; when n was absent, the parameters are unchanged |
| QueryParameters.UrlEncodePlain | src/Context/RequestContext.php:540-543 | letters, digits and "-_." are written as they are |
| QueryParameters.TwoParameters | src/Context/RequestContext.php:162-169 | {"foo":"bar","baz":"quz"} is written as "foo=bar&baz=quz" |
| Base64.Encode | src/Context/RequestContext.php:337-345 | the encoding has four characters per started group of three bytes |
| Base64.DecodeEncode | src/Context/RequestContext.php:337-345 | decoding base64_encode gives the bytes back |
| Base64.EncodeInjective | src/Context/RequestContext.php:337-345 | distinct byte strings have distinct encodings |
| MessageHeaders.Find | src/Context/ContextTrait.php:29-32 | the position found is the first header whose name matches case-insensitively; none exactly when no name matches |
| MessageHeaders.GetIgnoresCase | src/Context/ContextTrait.php:29-32 | header lookup gives the same values for any casing of the name |
| MessageHeaders.Remove | src/Context/RequestContext.php:298-303 | every header of that name, in any casing, is gone; the others are unchanged; removing an absent header changes nothing |
| MessageHeaders.RemoveWellFormed | src/Context/RequestContext.php:298-303 | removing keeps the list free of repeated names |
| MessageHeaders.Set | src/Context/RequestContext.php:279-289 | withHeader leaves the new values under the name, is last in the list, keeps the others, and keeps the list free of repeats |
| MessageHeaders.Add | src/Context/RequestContext.php:279-289 | withAddedHeader appends the values after the existing ones, keeps the names and positions of present headers, and appends a new header at the end |
| MessageHeaders.SetHas | src/Drivers/StreamDriver.php:66-69 | after withHeader, the other headers are present exactly as before |
| MessageHeaders.RemoveHas | src/Context/RequestContext.php:298-303 | after removal, a name is present exactly when it differs from the removed one and was present |
| ContextTrait.StripParameters | src/Context/ContextTrait.php:111 | the stripped type holds no ';' and is trimmed |
| ContextTrait.GetContentType | src/Context/ContextTrait.php:99-112 | null exactly when the Content-Type line is falsy; otherwise the line, or with omitEncoding the stripped line |
| ContextTrait.StripParametersIdempotent | src/Context/ContextTrait.php:111 | stripping twice is stripping once |
| ContextTrait.StripPlainMediaType | src/Context/ContextTrait.php:111 | a trimmed type without ';' is kept as it is |
| ContextTrait.StripParametersOfMediaType | src/Context/ContextTrait.php:111 | "application/json; charset=utf-8" and the like give the media type before the ';' |
| ContextTrait.StripParametersSkipsLeadingSeparator | src/Context/ContextTrait.php:111 | because strtok skips leading ';', ";charset=utf-8" gives "charset=utf-8" and ";;" gives "" |
| ContextTrait.StripParametersAfterSeparator | src/Context/ContextTrait.php:111 | a ';' in front of a trimmed text without ';' is skipped and the text is taken for the media type |
| ContextTrait.ZeroContentTypeIsNull | src/Context/ContextTrait.php:101-105 | a Content-Type of "0" reads as null, with or without omitEncoding |
| Drivers.ValueLines | src/Drivers/AbstractDriver.php:26-30 | one "name: value" line per value of a header, in value order |
| Drivers.HeaderLinesCount | src/Drivers/AbstractDriver.php:26-30 | there are exactly as many lines as header values |
| Drivers.HeaderLinesConcat | src/Drivers/AbstractDriver.php:22-33 | the lines of two header lists in a row are the first's lines, then the second's |
| Drivers.HeaderLinesCons | src/Drivers/AbstractDriver.php:27 | a header's lines come before those of later headers, and a header with no value contributes none |
| Drivers.MarshalHeaders | src/Drivers/AbstractDriver.php:22-33 | the nested loop builds exactly the wire lines: header order, then value order |
| Drivers.WithDefault | src/Drivers/StreamDriver.php:99-113 | afterwards the header is present, with its old values when it had any and otherwise the default; the others are unchanged |
| Drivers.WithDefaultHas | src/Drivers/StreamDriver.php:99-113 | supplying a default leaves the presence of every other header as it was |
| Transport.Driver.constructor | src/Drivers/AbstractDriver.php:13 | a driver starts with no response factory, no timeout, redirects followed and no redirect limit |
| Transport.Driver.SetResponseFactory | src/Drivers/AbstractDriver.php:52-56 | stores the factory and changes nothing else |
| Transport.Driver.GetResponseFactory | src/Drivers/AbstractDriver.php:58-61 | the factory last set; before any is set (the typed property of line 13 has no default), PHP's Error for reading an uninitialised typed property |
| Transport.Driver.SendRequest | src/Drivers/StreamDriver.php:50-187 | the answer is the driver's own composition (`Answer`): the options prepared from the request and the driver's settings, the exchange run with them, the factory read, then the stream driver's response reading or the curl driver's header collection and error switch (src/Drivers/CurlDriver.php:91-314); the curl branch is the corrected driver of both Findings rows |
| Transport.MissingFactoryAnswer | src/Drivers/StreamDriver.php:125-172 | without a factory, the stream driver still reports the exchange's exception and otherwise raises the Error; the curl driver, which reads the factory after every curl call (src/Drivers/CurlDriver.php:235-247), always raises the Error |
| Transport.StreamAnswer | src/Drivers/StreamDriver.php:66-187 | with a factory, the stream driver answers exactly when the exchange run with the prepared options succeeds and every header line holds ':'; status, reason, version and body come from the status line and the body read |
| Transport.CurlAnswer | src/Drivers/CurlDriver.php:98-314 | with a factory, the curl driver answers exactly when curl reports error 0, with curl's status, version and body and, under every name in any casing, the values of the lines of that name in arrival order; otherwise the exception its error code maps to; this is the corrected driver of both Findings rows, whose method switch keeps a GET with a body a GET and whose error 6 raises the unresolvable-host exception |
| StreamDriver.DistinctNames | src/Drivers/StreamDriver.php:66-113 | Host, Content-Length and Content-Type name different headers in every casing |
| StreamDriver.WireHeadersFacts | src/Drivers/StreamDriver.php:66-114 | Host holds the URI's host; with a body sent, a missing Content-Length becomes the size and a missing Content-Type becomes ""; the caller's values are kept; nothing else changes |
| StreamDriver.WireRequest | src/Drivers/StreamDriver.php:66-114 | the step-by-step header updates give exactly the wire headers, and the rest of the request is kept |
| StreamDriver.OptionsForEntries | src/Drivers/StreamDriver.php:66-119 | ignore_errors, protocol, method and user agent; follow_location is 1 or 0; max_redirects only when following with a limit; timeout only when one is set; content only for a body that may be sent; header is the marshalled wire headers |
| StreamDriver.PrepareOptions | src/Drivers/StreamDriver.php:66-119 | the step-by-step construction gives exactly the options described above and the request with its wire headers |
| StreamDriver.Span | src/Drivers/StreamDriver.php:151 | the end of the longest run, from i, of characters matching a class |
| StreamDriver.MatchAt | src/Drivers/StreamDriver.php:150-154 | a match at a position gives a non-empty version of digits and dots and a three-digit status |
| StreamDriver.Search | src/Drivers/StreamDriver.php:150-154 | preg_match's leftmost match, with the same guarantees |
| StreamDriver.ParseStatusLine | src/Drivers/StreamDriver.php:150-164 | the status group is either three digits or absent ("") |
| StreamDriver.ReasonPhrase | src/Drivers/StreamDriver.php:167-169 | a truthy reason is kept; a falsy one becomes the table's phrase, or "" for an unknown code |
| StreamDriver.StatusLineOfParts | src/Drivers/StreamDriver.php:150-164 | "HTTP/v sss reason" reads back as v, sss and " reason", the reason keeping its leading blank |
| StreamDriver.SpanCovers | src/Drivers/StreamDriver.php:151 | a maximal run is what Span finds |
| StreamDriver.StatusLineExample | src/Drivers/StreamDriver.php:150-164 | "HTTP/1.1 200 OK" gives version "1.1", status "200" and reason " OK" |
| StreamDriver.StatusLineWithoutReason | src/Drivers/StreamDriver.php:150-169 | "HTTP/1.1 204" has no reason group, so the reason becomes "No Content" from the table |
| StreamDriver.StatusLineWithoutMatch | src/Drivers/StreamDriver.php:157-164 | a line without "HTTP/" reads as version "", status "" and reason "" |
| StreamDriver.NoMatchFrom | src/Drivers/StreamDriver.php:150-154 | with no "HTTP/" at or after a position, the search finds nothing |
| StreamDriver.StatusResponseOfParts | src/Drivers/StreamDriver.php:150-175 | the response of a well-formed status line has its status code, its version and the reason with its leading blank |
| StreamDriver.StatusResponseWithoutMatch | src/Drivers/StreamDriver.php:157-175 | the response of a line that is no status line has status 0, version "" and reason "" |
| StreamDriver.SplitHeaderLine | src/Drivers/StreamDriver.php:178-184 | no value exactly when the line has no ':'; otherwise a name and a trimmed value, neither holding ':' |
| StreamDriver.SplitMarshalledLine | src/Drivers/StreamDriver.php:178-184 | a "name: value" line of a colon-free name and value splits back into that name and value |
| StreamDriver.TrimBlankThenTrimmed | src/Drivers/StreamDriver.php:183 | trimming " " followed by a trimmed text gives the text |
| StreamDriver.ValueStopsAtSecondColon | src/Drivers/StreamDriver.php:179 | the value stops at the second ':', so "Date: Mon, 01 Jan 2020 10:00:00 GMT" keeps only "Mon, 01 Jan 2020 10" |
| StreamDriver.SplitLines | src/Drivers/StreamDriver.php:178-185 | every line splits exactly when every line holds a ':', and one field comes out per line |
| StreamDriver.WithResponseHeaders | src/Drivers/StreamDriver.php:178-187 | status, reason, version and body are kept; the result is a success exactly when every header line holds ':'; otherwise it is trim's TypeError on null |
| StreamDriver.SetFieldsWellFormed | src/Drivers/StreamDriver.php:178-185 | the response headers stay free of repeated names |
| StreamDriver.SetFieldsUntouched | src/Drivers/StreamDriver.php:178-185 | a header that no line names keeps its values |
| StreamDriver.SetFieldsLast | src/Drivers/StreamDriver.php:178-185 | a header holds exactly the value of the last line that names it, in any casing |
| StreamDriver.LastLineWins | src/Drivers/StreamDriver.php:181-184 | a later line for the same name replaces all earlier values (withHeader, not withAddedHeader) |
| StreamDriver.WithResponseHeadersWellFormed | src/Drivers/StreamDriver.php:178-185 | a successful read gives a header list free of repeated names |
| StreamDriver.ApplyResponseHeaders | src/Drivers/StreamDriver.php:178-185 | the loop that applies one line at a time gives exactly the response described above, failing at the first line without ':' |
| StreamDriver.ReadResponse | src/Drivers/StreamDriver.php:144-187 | the status line is parsed, the response built, and the header lines applied; status, reason and body survive |
| CurlDriver.ErrorMessage | src/Drivers/CurlDriver.php:258 | the message is truthy: `curl_error`'s text when truthy, "none" otherwise |
| CurlDriver.Classify | src/Drivers/CurlDriver.php:263-314 | 0 passes; 6 raises unresolvable-host for the request (code 0); the six connection codes raise a connection error and the nine certificate names a certificate error, both with the curl code; any other code raises the generic ClientException |
| CurlDriver.ClassifyAsWrittenFailsOnUnresolvedHost | src/Drivers/CurlDriver.php:272 | as written, code 6 ends in PHP's TypeError for the URI argument, not in an unresolvable-host exception |
| CurlDriver.ClassifyMessages | src/Drivers/CurlDriver.php:282-313 | each raised exception carries the curl text behind its class's prefix, or "Request failed: Unknown curl error <code>: <text>" |
| CurlDriver.CertificateCodes | src/Drivers/CurlDriver.php:289-297 | with the code values of libcurl 7.62.0 and later, the nine certificate names stand for exactly the eight codes 35, 53, 54, 58, 59, 60, 77 and 90 |
| CurlDriver.MethodOptionAsWritten | src/Drivers/CurlDriver.php:133-159 | GET sets no option, POST the POST flag, every other method a custom request with its own name |
| CurlDriver.MethodOptionFor | src/Drivers/CurlDriver.php:133-159 | corrected: as above, except that an uploading GET names itself as a custom request |
| CurlDriver.MethodOptionForIsEffective | src/Drivers/CurlDriver.php:109-159 | with the corrected switch, the method libcurl uses is the request's method, whether or not a body is uploaded |
| CurlDriver.CurlHeaders | src/Drivers/CurlDriver.php:105-130 | with a non-empty body, a missing Content-Length becomes the size and an existing one is kept; without a body nothing changes |
| CurlDriver.PrepareOptionsAsWritten | src/Drivers/CurlDriver.php:98-171 | the options as the source sets them: the error codes aliased to 200, FAILONERROR and RETURNTRANSFER off, the upload fields exactly for a non-empty body, the marshalled headers; a GET with a body is sent as PUT |
| CurlDriver.OptionsFor | src/Drivers/CurlDriver.php:98-171 | the corrected options: the fields as above, and the method curl sends is always the request's own |
| CurlDriver.PrepareOptions | src/Drivers/CurlDriver.php:98-171 | the step-by-step construction with the corrected switch gives exactly those options and the request with its Content-Length |
| CurlDriver.LineField | src/Drivers/CurlDriver.php:197-210 | no field exactly when the line has no ':'; otherwise a lower-case trimmed name and a trimmed value |
| CurlDriver.LineFieldKeepsLaterColons | src/Drivers/CurlDriver.php:198-210 | the name is cut at the first ':' only, and the value keeps every later ':' |
| CurlDriver.CollectValues | src/Drivers/CurlDriver.php:204-210 | the collected values of a name are exactly the values, in arrival order, of the lines whose lower-cased name it is |
| CurlDriver.CollectKeys | src/Drivers/CurlDriver.php:204-210 | no name is collected twice, and every collected name is lower-case |
| CurlDriver.StatusLineSkipped | src/Drivers/CurlDriver.php:198-202 | the status line and the closing blank line add no header |
| CurlDriver.HeaderCollector.constructor | src/Drivers/CurlDriver.php:178 | collection starts empty |
| CurlDriver.HeaderCollector.OnHeaderLine | src/Drivers/CurlDriver.php:191-213 | returns the line's length for every line and records it in the collected array |
| CurlDriver.WithCollectedGet | src/Drivers/CurlDriver.php:252-254 | once the collected array is applied, each name, in any casing, holds the values collected under its lower-case form |
| CurlDriver.ResponseHeaderValues | src/Drivers/CurlDriver.php:191-254 | a response header of any name holds the values of every line with that name, in arrival order |
| CurlDriver.Completed | src/Drivers/CurlDriver.php:241-314 | success exactly when the curl error is 0, with the status, version, body and collected headers; otherwise the classified exception |
| CurlDriver.Finish | src/Drivers/CurlDriver.php:241-314 | the loop that sets one collected header at a time, then the error switch, give exactly that outcome |
| Client.DefaultResolution | src/Wander.php:59-71 | a new client resolves application/json to JSON, text/plain to plain text and the form type to the form serialiser, and nothing else |
| Client.DispatchResponse | src/Wander.php:276-288 | a response raises exactly when its status is 400–599; the error carries the request and response and has the status as its code; any other response is returned unchanged |
| Client.DispatchDriverFailure | src/Wander.php:278 | the driver's exceptions reach the caller unchanged |
| Client.SerializerForStripsParameters | src/Context/RequestContext.php:507-513 | a content type with parameters selects the serialiser of its bare media type, and plain text when none is registered |
| Client.SerializerForPlainType | src/Context/RequestContext.php:507-513 | a content type without parameters selects its own serialiser |
| Client.SerializerForMissingType | src/Context/ResponseContext.php:77-92 | without a Content-Type the text/plain entry is used, and the plain-text serialiser when that is missing too |
| Client.PrepareJsonBody | src/Context/RequestContext.php:505-528 | a JSON-typed string body is sent as what the JSON extension encodes it to, and the rest of the request is kept |
| Client.PreparePlainBody | src/Context/RequestContext.php:505-528 | an untyped string body is sent byte for byte |
| Client.PrepareRefusedBody | src/Context/RequestContext.php:505-528 | a body the chosen serialiser cannot write raises, and nothing is sent |
| Client.ApplyHeadersStep | src/Context/RequestContext.php:253-260 | one more entry is one more withHeader or withAddedHeader |
| Client.ApplyHeadersElsewhere | src/Context/RequestContext.php:253-260 | headers that no entry names are untouched |
| Client.ApplyHeadersGet | src/Context/RequestContext.php:253-260 | with distinct names, each entry's header ends up holding exactly its values, or with append the earlier values followed by them |
| Client.ApplyHeadersWellFormed | src/Context/RequestContext.php:253-260 | withHeaders keeps the list free of repeated names |
| Client.BasicCredentialsDecode | src/Context/RequestContext.php:337-345 | the Basic credentials decode to the bytes of "user:password", a null password written as "" |
| Client.BasicCredentialsInjective | src/Context/RequestContext.php:337-345 | different user:password texts give different credentials |
| Client.Wander.constructor | src/Wander.php:48-72 | factories are set before the driver, so the driver gets the response factory; a missing factory is one shared Psr17Factory; the registry holds the three serialisers; nothing has been sent |
| Client.Wander.SetDriver | src/Wander.php:74-80 | stores the driver and hands it the client's response factory |
| Client.Wander.AddSerializer | src/Wander.php:125-135 | registers or replaces the serialiser for the media type and returns the same client |
| Client.Wander.CreateContextFromRequest | src/Wander.php:267-271 | a new context for this client around the request, with no body |
| Client.Wander.CreateContext | src/Wander.php:250-258 | a new context around a new request for the method and URI, with no body |
| Client.Wander.Get | src/Wander.php:144-147 | a new context for a GET request, with no body |
| Client.Wander.Head | src/Wander.php:156-159 | a new context for a HEAD request, with no body |
| Client.Wander.Options | src/Wander.php:168-171 | a new context for an OPTIONS request, with no body |
| Client.Wander.Delete | src/Wander.php:180-183 | a new context for a DELETE request, with no body |
| Client.Wander.Post | src/Wander.php:193-202 | a new POST context that keeps the body only when it is truthy |
| Client.Wander.Put | src/Wander.php:212-221 | a new PUT context that keeps the body only when it is truthy |
| Client.Wander.Patch | src/Wander.php:231-240 | a new PATCH context that keeps the body only when it is truthy |
| Client.Wander.Request | src/Wander.php:276-288 | the driver is called exactly once, and its answer decides as Dispatch does |
| Client.RequestContext.constructor | src/Context/RequestContext.php:45-51 | the context holds the client and the request, with no body |
| Client.RequestContext.SetRequest | src/Context/RequestContext.php:58-61 | replaces the request outright |
| Client.RequestContext.GetRequest | src/Context/RequestContext.php:68-71 | returns the current request |
| Client.RequestContext.WithMethod | src/Context/RequestContext.php:82-87 | returns the same context; only the method changes |
| Client.RequestContext.GetMethod | src/Context/RequestContext.php:94-97 | returns the method |
| Client.RequestContext.WithUri | src/Context/RequestContext.php:107-115 | returns the same context; only the URI changes |
| Client.RequestContext.GetUri | src/Context/RequestContext.php:122-125 | returns the URI |
| Client.RequestContext.WithQueryString | src/Context/RequestContext.php:135-140 | returns the same context; only the URI's query changes |
| Client.RequestContext.GetQueryString | src/Context/RequestContext.php:147-150 | returns the URI's query |
| Client.RequestContext.WithQueryParameters | src/Context/RequestContext.php:162-169 | the query becomes the form encoding of the parameters, which reads back as their non-null entries |
| Client.RequestContext.GetQueryParameters | src/Context/RequestContext.php:178-183 | returns the parse_str reading of the query |
| Client.RequestContext.WithQueryParameter | src/Context/RequestContext.php:197-207 | afterwards the name reads as the value's text and every other parameter as before |
| Client.RequestContext.WithoutQueryParameter | src/Context/RequestContext.php:217-224 | afterwards the name is gone and every other parameter reads as before; when it was absent the parameters are unchanged |
| Client.RequestContext.GetQueryParameter | src/Context/RequestContext.php:235-240 | returns the parameter's text, or null |
| Client.RequestContext.WithHeader | src/Context/RequestContext.php:279-289 | without append the header holds exactly the values; with append they follow the ones already there; other headers are unchanged |
| Client.RequestContext.WithHeaders | src/Context/RequestContext.php:253-260 | the loop applies withHeader to each entry in turn, with the same append flag |
| Client.RequestContext.WithoutHeader | src/Context/RequestContext.php:298-303 | the header is gone in every casing, and the others are unchanged |
| Client.RequestContext.WithAuthorization | src/Context/RequestContext.php:318-326 | Authorization holds exactly one value, "type credentials", however often it is called |
| Client.RequestContext.WithBasicAuthorization | src/Context/RequestContext.php:337-345 | Authorization is "Basic " followed by base64 of "user:password" |
| Client.RequestContext.WithBearerAuthorization | src/Context/RequestContext.php:355-362 | Authorization is "Bearer " followed by the token |
| Client.RequestContext.WithContentType | src/Context/RequestContext.php:373-379 | Content-Type holds exactly the type, which getContentType then reports (null for a falsy type) |
| Client.RequestContext.AsJson | src/Context/RequestContext.php:387-393 | the content type becomes application/json, also with parameters stripped |
| Client.RequestContext.AsXml | src/Context/RequestContext.php:401-407 | the content type becomes text/xml |
| Client.RequestContext.AsPlainText | src/Context/RequestContext.php:415-421 | the content type becomes text/plain |
| Client.RequestContext.WithBody | src/Context/RequestContext.php:433-438 | stores the body as it is, and the request is not touched |
| Client.RequestContext.GetBody | src/Context/RequestContext.php:445-448 | returns the stored body |
| Client.RequestContext.HasBody | src/Context/RequestContext.php:455-458 | false exactly when no body is stored |
| Client.RequestContext.GetHeader | src/Context/ContextTrait.php:29-32 | the values of the header in any casing; [] for a missing header |
| Client.RequestContext.GetHeaderLine | src/Context/ContextTrait.php:55-58 | the values joined by ", "; "" for a missing header |
| Client.RequestContext.GetHeaders | src/Context/ContextTrait.php:85-88 | the headers with the casing they were stored with |
| Client.RequestContext.GetContentType | src/Context/ContextTrait.php:99-112 | getContentType on the request's headers |
| Client.RequestContext.Run | src/Context/RequestContext.php:472-529 | the prepared request is stored and handed to the client once; its answer is wrapped in a new response context; when the serialiser raises, nothing is stored or sent |
| Client.ResponseContext.constructor | src/Context/ResponseContext.php:28-34 | the context holds the response, with nothing parsed yet |
| Client.ResponseContext.GetResponse | src/Context/ResponseContext.php:36-39 | returns the response |
| Client.ResponseContext.GetStatusCode | src/Context/ResponseContext.php:41-44 | returns the status with no range check (9999 stays 9999) |
| Client.ResponseContext.GetReasonPhrase | src/Context/ResponseContext.php:46-49 | returns the reason phrase |
| Client.ResponseContext.GetProtocolVersion | src/Context/ResponseContext.php:51-54 | returns the protocol version |
| Client.ResponseContext.GetBody | src/Context/ResponseContext.php:56-59 | returns the body stream |
| Client.ResponseContext.GetHeader | src/Context/ResponseContext.php:97-100 | the response's values for the header; [] when it is missing |
| Client.ResponseContext.GetHeaderLine | src/Context/ResponseContext.php:97-100 | the response's header line; "" when it is missing |
| Client.ResponseContext.GetHeaders | src/Context/ResponseContext.php:97-100 | the response's headers |
| Client.ResponseContext.GetContentType | src/Context/ResponseContext.php:97-100 | getContentType on the response's headers |
| Client.ResponseContext.ParseBody | src/Context/ResponseContext.php:77-92 | extract of the serialiser for the stripped content type; a non-exception result is stored; status, reason, version and headers are untouched |
| Client.ResponseContext.GetParsedBody | src/Context/ResponseContext.php:65-72 | a truthy cached body is returned without extracting again; a falsy one is parsed again; a truthy result is cached |
| Client.BuiltInParseKeepsResponse | src/Context/ResponseContext.php:77-92 | a built-in serialiser leaves the body's bytes alone and only moves the read position |
| Client.SingleContentType | src/Context/ContextTrait.php:99-112 | a single bare media type is the content type both with and without parameters stripped |
| Client.PlainTextReadTwice | src/Serializers/PlainTextSerializer.php:39-42 | a second extract reads "", because the first left the stream at its end |

## Left out

- **Network and process I/O.** A driver's network exchange is a function handed in (`Transport.Exchange`); the driver's decisions before and after it are modelled. Not modelled:
  - `curl_init`, `curl_exec`, `curl_getinfo`, `curl_close`;
  - `stream_context_create` and `file_get_contents`;
  - `dns_get_record`;
  - `detach`, which hands curl the stream resource.
- **URL validation and host resolution** in the stream driver (`filter_var`, `resolveHostname`, src/Drivers/StreamDriver.php:52-62, 200-221). Both are I/O. Their `DriverException` and `UnresolvableHostException` appear only through the exception records.
- **Shapes of `$http_response_header` and curl header lines.** They are taken as given: the stream driver receives the status line and the header lines already separated.
- **The stream timeout conversion.** `StreamDriver.PrepareOptions` keeps the timeout in milliseconds, because the float division by 1000 (src/Drivers/StreamDriver.php:88) is not modelled.
- **Curl options that are pure configuration stay as fields or are left out:**
  - the caller's default options (`getDefaultOptions`);
  - `CURLOPT_URL`;
  - the header and write callbacks' registration.
- **The curl driver ignores the timeout and redirect settings.** The source's curl driver has neither setting; the model gives every `Transport.Driver` both, and the curl driver's answer does not read them.
- **Transport.Driver.SendRequest** runs the corrected curl driver, not the code as written. It sends the options of `CurlDriver.OptionsFor`, so a GET with a body stays a GET, where src/Drivers/CurlDriver.php:112 and 133-135 make curl send PUT. It maps error 6 through `CurlDriver.Classify` to the unresolvable-host exception, where src/Drivers/CurlDriver.php:272 raises PHP's TypeError. The as-written behaviour is stated only by `CurlDriver.PrepareOptionsAsWritten` and `CurlDriver.ClassifyAsWrittenFailsOnUnresolvedHost` (see Findings).
- **Transport.CurlAnswer** describes that corrected curl driver too, with the same two differences from the code as written.
- **Status.GetErrorCodes** is a map, so the order of the source's array is lost (there, 412 comes after 426).
- **CurlDriver.Completed** builds the response with reason "". The PSR-7 factory's default phrase for `createResponse($code)` is not modelled.
- **PSR-7 message internals.** Requests and responses are plain records. Not modelled:
  - URI parsing and its string form;
  - the Host update of `withUri` with `preserveHost` false, which resets Host from the new URI and moves it first. `Client.RequestContext.WithUri`, `Client.RequestContext.WithQueryString`, `Client.RequestContext.WithQueryParameters`, `Client.RequestContext.WithQueryParameter` and `Client.RequestContext.WithoutQueryParameter` only replace the URI and keep the headers, so a Host set earlier with `withHeader` survives in the model but not in the source;
  - validation of header names, header values, methods and status ranges;
  - the trimming of header values by the message implementation.

  A stream is its bytes and a read position.
- **Factories.** Every factory is one `Psr17Factory` object with no behaviour of its own. Not modelled: `getDriver`, `setRequestFactory`, `getRequestFactory`, `setResponseFactory`, `getResponseFactory` and `getSerializerRegistry` (src/Wander.php:82-115). These are plain field accessors.
- **Client.Wander.constructor** takes a driver. The default `new StreamDriver()` for a missing driver is not modelled, because a driver's network exchange is a parameter.
- **`ResponseErrorException::create`** (src/Wander.php:281) does not exist in the exception class shown. The model raises the single `ResponseError` value, with the constructor's message and code.
- **`ClientException`**, thrown for unknown curl errors, is not part of this model beyond its message and code.
- **Form encoding covers flat arrays only.** Not modelled:
  - nested arrays and `[]` keys;
  - `parse_str`'s mangling of '.', ' ' and '[' in keys;
  - float formatting.

  The round-trip lemmas hold for the model's codec; PHP's `parse_str` agrees with it for keys without those three characters.
- **JSON.** The JSON extension is a parameter (`Serializers.JsonLibrary`). Only the flags the serialiser passes are modelled.
- **Superseded and unimplemented declarations.** src/Context.php and src/Interfaces/*.php are not part of this model: the first is superseded and both are out of date. The operation shapes come from the implementing classes.
- **Constant tables.** Only the constants the core uses are copied from src/Http/MediaType.php, src/Http/Authorization.php and src/Http/Method.php. The header-name constants class is not part of this model; its names are written out ("Host", "Content-Type", "Content-Length", "Authorization").
- **Strings are byte strings.** Each `char` of a string stands for one byte. Characters above 255, which PHP strings cannot hold, are reduced to a byte for base64 and kept as they are by `urlencode`.

## Findings

| source | as written | input that shows it | evidently intended | confidence | as-written member | corrected member |
|---|---|---|---|---|---|---|
| src/Drivers/CurlDriver.php:272 | `new UnresolvableHostException($request->getUri())` passes a URI where the constructor declares a request, which is a TypeError under strict types | a curl error 6 (CURLE_COULDNT_RESOLVE_HOST) | raise UnresolvableHostException for the request | high, not executed | CurlDriver.ClassifyAsWrittenFailsOnUnresolvedHost | CurlDriver.Classify |
| src/Drivers/CurlDriver.php:112, 133-135 | a GET with a non-empty body sets CURLOPT_UPLOAD and no method option, so curl sends PUT; the comment at 109-111 says the method is set again below, but the GET case does not | GET with a 3-byte body | the request's own method, GET | medium, not executed | CurlDriver.PrepareOptionsAsWritten | CurlDriver.PrepareOptions |
