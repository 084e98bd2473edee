/**
 * The header accessors request and response contexts share: headers by
 * name, header lines, and the content type with or without its
 * parameters.
 */
module ContextTrait {
  import opened Wrappers
  import opened PhpStrings
  import opened MessageHeaders
  import opened Messages

  /**
   * `trim(strtok($mediaType, ';'))`: the text before the first ';' that
   * follows some other text, trimmed; `strtok`'s `false` (nothing but ';')
   * trims to "".
   */
  function StripParameters(line: string): (r: string)
    ensures ';' !in r && IsTrimmed(r)
  {
    var token := FirstToken(line, ';').GetOr("");
    TrimSubset(token, ';');
    Trim(token)
  }

  /**
   * `getContentType`: `None` (null) when the Content-Type line is falsy
   * ("" for an absent header, or "0"); otherwise the line, or with
   * `omitEncoding` the line without its parameters.
   */
  function GetContentType(h: Headers, omitEncoding: bool := false): (r: Option<string>)
    ensures r.None? <==> IsFalsy(Line(h, CONTENT_TYPE))
    ensures r.Some? && !omitEncoding ==> r.value == Line(h, CONTENT_TYPE)
    ensures r.Some? && omitEncoding ==> r.value == StripParameters(Line(h, CONTENT_TYPE)) && ';' !in r.value
  {
    var mediaType := Line(h, CONTENT_TYPE);
    if IsFalsy(mediaType) then None
    else if !omitEncoding then Some(mediaType)
    else Some(StripParameters(mediaType))
  }

  /** A media type without parameters and without surrounding blanks is kept as it is. */
  lemma StripPlainMediaType(line: string)
    requires ';' !in line && IsTrimmed(line)
    ensures StripParameters(line) == line
  {
    FirstTokenIsFirstOfTokens(line, ';');
    TokensOfPlain(line, ';');
    TrimKeepsTrimmed(line);
  }

  /** Stripping parameters twice is stripping them once. */
  lemma StripParametersIdempotent(line: string)
    ensures StripParameters(StripParameters(line)) == StripParameters(line)
  {
    StripPlainMediaType(StripParameters(line));
  }

  /** A media type followed by parameters gives the media type. */
  lemma {:induction false} StripParametersOfMediaType(mediaType: string, parameters: string)
    requires mediaType != "" && ';' !in mediaType && IsTrimmed(mediaType)
    ensures StripParameters(mediaType + ";" + parameters) == mediaType
  {
    var line := mediaType + ";" + parameters;
    assert line == mediaType + [';'] + parameters;
    TokensConcat(mediaType, parameters, ';');
    TokensOfPlain(mediaType, ';');
    FirstTokenIsFirstOfTokens(line, ';');
    TrimKeepsTrimmed(mediaType);
  }

  /** Leading ';'s are skipped: the first parameter is then taken for the media type. */
  lemma StripParametersSkipsLeadingSeparator()
    ensures StripParameters(";charset=utf-8") == "charset=utf-8"
    ensures StripParameters(";;") == ""
  {
    assert ";charset=utf-8" == ";" + "charset=utf-8";
    StripParametersAfterSeparator("charset=utf-8");
    assert FirstToken(";;", ';') == None by {
      assert ";;"[1..] == ";" && ";"[1..] == "";
    }
  }

  /** A ';' in front of a plain, trimmed text is skipped and the text kept. */
  lemma StripParametersAfterSeparator(t: string)
    requires t != "" && ';' !in t && IsTrimmed(t)
    ensures StripParameters(";" + t) == t
  {
    var line := ";" + t;
    assert line[1..] == t;
    assert FirstToken(line, ';') == FirstToken(t, ';');
    assert IndexOf(t, ';') == None;
    TrimKeepsTrimmed(t);
  }

  /** A Content-Type of "0" reads as no content type at all. */
  lemma ZeroContentTypeIsNull(h: Headers)
    requires Get(h, CONTENT_TYPE) == ["0"]
    ensures GetContentType(h) == None && GetContentType(h, true) == None
  {
  }
}
