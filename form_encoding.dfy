/**
 * The `application/x-www-form-urlencoded` format as PHP writes it with
 * `http_build_query` and reads it with `parse_str`, for flat arrays:
 * `key=value` pairs joined by '&', with keys and values percent-encoded as
 * `urlencode` does (a space becomes '+').
 */
module FormEncoding {
  import opened Wrappers
  import opened PhpStrings
  import opened PhpArrays
  import opened Values

  /** The characters `urlencode` leaves as they are. */
  predicate Unreserved(c: char) {
    'A' <= c <= 'Z' || 'a' <= c <= 'z' || '0' <= c <= '9' || c == '-' || c == '_' || c == '.'
  }

  function HexDigit(n: nat): char
    requires n < 16
  {
    if n < 10 then ('0' as int + n) as char else ('A' as int + n - 10) as char
  }

  /** The value of a hexadecimal digit of either case. */
  function HexValue(c: char): (r: Option<nat>)
    ensures r.Some? ==> r.value < 16
  {
    if '0' <= c <= '9' then Some(c as int - '0' as int)
    else if 'A' <= c <= 'F' then Some(c as int - 'A' as int + 10)
    else if 'a' <= c <= 'f' then Some(c as int - 'a' as int + 10)
    else None
  }

  lemma HexValueOfDigit(n: nat)
    requires n < 16
    ensures HexValue(HexDigit(n)) == Some(n)
  {
  }

  /**
   * `urlencode` of one byte: unreserved characters stay, a space becomes
   * '+', any other byte becomes '%' and two upper-case hex digits.  (A
   * character above 255 cannot occur in a PHP string; it is kept.)
   */
  function EncodeChar(c: char): (r: string)
    ensures '&' !in r && '=' !in r && |r| > 0
  {
    if Unreserved(c) then [c]
    else if c == ' ' then "+"
    else if c as int < 256 then ['%', HexDigit(c as int / 16), HexDigit(c as int % 16)]
    else [c]
  }

  /** `urlencode`. */
  function UrlEncode(s: string): (r: string)
    ensures '&' !in r && '=' !in r
    ensures |s| > 0 ==> |r| > 0
  {
    if |s| == 0 then "" else EncodeChar(s[0]) + UrlEncode(s[1..])
  }

  /** `urldecode`: '+' is a space, '%' and two hex digits a byte, anything else itself. */
  function UrlDecode(s: string): string
    decreases |s|
  {
    if |s| == 0 then ""
    else if s[0] == '+' then " " + UrlDecode(s[1..])
    else if s[0] == '%' && |s| >= 3 && HexValue(s[1]).Some? && HexValue(s[2]).Some? then
      [(HexValue(s[1]).value * 16 + HexValue(s[2]).value) as char] + UrlDecode(s[3..])
    else [s[0]] + UrlDecode(s[1..])
  }

  /** Decoding reads an encoded character back and goes on after it. */
  lemma DecodeEncodedChar(c: char, t: string)
    ensures UrlDecode(EncodeChar(c) + t) == [c] + UrlDecode(t)
  {
    var s := EncodeChar(c) + t;
    if Unreserved(c) || c == ' ' || c as int >= 256 {
      assert s[1..] == t;
    } else {
      HexValueOfDigit(c as int / 16);
      HexValueOfDigit(c as int % 16);
      assert s[3..] == t;
    }
  }

  /** `urldecode` undoes `urlencode`. */
  lemma {:induction false} UrlDecodeEncode(s: string)
    ensures UrlDecode(UrlEncode(s)) == s
    decreases |s|
  {
    if |s| > 0 {
      DecodeEncodedChar(s[0], UrlEncode(s[1..]));
      UrlDecodeEncode(s[1..]);
      assert [s[0]] + s[1..] == s;
    }
  }

  /** The text `http_build_query` writes for a scalar; `None` for null, which it leaves out. */
  function QueryText(v: Scalar): Option<string> {
    match v
    case SNull => None
    case SBool(b) => Some(if b then "1" else "0")
    case SInt(i) => Some(IntToString(i))
    case SString(s) => Some(s)
  }

  /** The `key=value` pairs `http_build_query` writes, in order. */
  function Pairs(p: seq<(string, Scalar)>): (r: seq<string>)
    ensures forall i :: 0 <= i < |r| ==> r[i] != "" && '&' !in r[i]
    decreases |p|
  {
    if |p| == 0 then []
    else
      var init := Pairs(p[..|p| - 1]);
      var (k, v) := p[|p| - 1];
      match QueryText(v)
      case None => init
      case Some(t) => init + [UrlEncode(k) + "=" + UrlEncode(t)]
  }

  /** `http_build_query` of a flat array. */
  function BuildQuery(p: seq<(string, Scalar)>): string {
    Join(Pairs(p), "&")
  }

  /** What reading back a flat array gives: its non-null entries as text. */
  function Stringified(p: seq<(string, Scalar)>): seq<(string, string)>
    decreases |p|
  {
    if |p| == 0 then []
    else
      var init := Stringified(p[..|p| - 1]);
      var (k, v) := p[|p| - 1];
      match QueryText(v)
      case None => init
      case Some(t) => init + [(k, t)]
  }

  /** `parse_str` of one `key=value` piece: a piece whose key decodes to "" is skipped. */
  function RegisterPair(acc: seq<(string, string)>, piece: string): seq<(string, string)> {
    var (rawKey, rawValue) := SplitFirst(piece, '=');
    var key := UrlDecode(rawKey);
    if key == "" then acc else Assign(acc, key, UrlDecode(rawValue.GetOr("")))
  }

  function RegisterPairs(pieces: seq<string>): seq<(string, string)>
    decreases |pieces|
  {
    if |pieces| == 0 then [] else RegisterPair(RegisterPairs(pieces[..|pieces| - 1]), pieces[|pieces| - 1])
  }

  /**
   * `parse_str` of a flat query: the pieces between '&'s, each split at
   * its first '='; a later piece with the same key overwrites the value in
   * the earlier one's place.
   */
  function ParseQuery(q: string): seq<(string, string)> {
    RegisterPairs(Tokens(q, '&'))
  }

  /** A flat array of strings, as the scalars `withQueryParameters` receives. */
  function Lift(m: seq<(string, string)>): (r: seq<(string, Scalar)>)
    ensures |r| == |m|
    ensures forall i :: 0 <= i < |m| ==> r[i] == (m[i].0, SString(m[i].1))
  {
    seq(|m|, i requires 0 <= i < |m| => (m[i].0, SString(m[i].1)))
  }

  /** What `parse_str` produces is a PHP array with non-empty keys. */
  lemma {:induction false} ParseQueryWellFormed(pieces: seq<string>)
    ensures UniqueKeys(RegisterPairs(pieces))
    ensures forall i :: 0 <= i < |RegisterPairs(pieces)| ==> RegisterPairs(pieces)[i].0 != ""
    decreases |pieces|
  {
    if |pieces| > 0 {
      var acc := RegisterPairs(pieces[..|pieces| - 1]);
      ParseQueryWellFormed(pieces[..|pieces| - 1]);
      var (rawKey, rawValue) := SplitFirst(pieces[|pieces| - 1], '=');
      var key := UrlDecode(rawKey);
      if key != "" {
        var r := Assign(acc, key, UrlDecode(rawValue.GetOr("")));
        assert Keys(r) == Keys(acc) || r == acc + [(key, UrlDecode(rawValue.GetOr("")))];
        forall i | 0 <= i < |r|
          ensures r[i].0 != ""
        {
          assert Keys(r)[i] == r[i].0;
          if Keys(r) == Keys(acc) {
            assert Keys(acc)[i] == acc[i].0;
          }
        }
      }
    }
  }

  /** The keys of what reads back are keys of the array written. */
  lemma {:induction false} StringifiedKeys(p: seq<(string, Scalar)>, k: string)
    requires forall i :: 0 <= i < |p| ==> p[i].0 != k
    ensures Find(Stringified(p), k).None?
    decreases |p|
  {
    if |p| > 0 {
      StringifiedKeys(p[..|p| - 1], k);
    }
  }

  /** Reading back each pair written. */
  lemma {:induction false} RegisterPairsOfPairs(p: seq<(string, Scalar)>)
    requires UniqueKeys(p)
    requires forall i :: 0 <= i < |p| ==> p[i].0 != ""
    ensures RegisterPairs(Pairs(p)) == Stringified(p)
    decreases |p|
  {
    if |p| > 0 {
      var init := p[..|p| - 1];
      var (k, v) := p[|p| - 1];
      RegisterPairsOfPairs(init);
      match QueryText(v)
      case None =>
      case Some(t) =>
        var piece := UrlEncode(k) + "=" + UrlEncode(t);
        var pieces := Pairs(init) + [piece];
        assert pieces[..|pieces| - 1] == Pairs(init);
        assert forall i :: 0 <= i < |init| ==> init[i] == p[i];
        assert Find(Stringified(init), k).None? by {
          assert forall i :: 0 <= i < |init| ==> init[i].0 != k by {
            forall i | 0 <= i < |init| ensures init[i].0 != k { assert init[i] == p[i]; }
          }
          StringifiedKeys(init, k);
        }
        RegisterEncodedPair(Stringified(init), k, t);
    }
  }

  /** A written pair whose key is new is read back at the end. */
  lemma RegisterEncodedPair(acc: seq<(string, string)>, k: string, t: string)
    requires k != "" && Find(acc, k).None?
    ensures RegisterPair(acc, UrlEncode(k) + "=" + UrlEncode(t)) == acc + [(k, t)]
  {
    var piece := UrlEncode(k) + "=" + UrlEncode(t);
    assert piece == UrlEncode(k) + ['='] + UrlEncode(t);
    SplitFirstAt(UrlEncode(k), '=', UrlEncode(t));
    UrlDecodeEncode(k);
    UrlDecodeEncode(t);
  }

  /**
   * `parse_str` reads back what `http_build_query` wrote: the non-null
   * entries, in order, with their values as text.
   */
  lemma ParseBuild(p: seq<(string, Scalar)>)
    requires UniqueKeys(p)
    requires forall i :: 0 <= i < |p| ==> p[i].0 != ""
    ensures ParseQuery(BuildQuery(p)) == Stringified(p)
  {
    TokensOfJoin(Pairs(p), '&');
    RegisterPairsOfPairs(p);
  }

  /** Writing text entries and reading them back changes nothing. */
  lemma {:induction false} StringifiedLift(m: seq<(string, string)>)
    ensures Stringified(Lift(m)) == m
    decreases |m|
  {
    if |m| > 0 {
      assert Lift(m)[..|m| - 1] == Lift(m[..|m| - 1]);
      StringifiedLift(m[..|m| - 1]);
    }
  }

  /** Looking a key up in what reads back. */
  lemma {:induction false} GetStringified(p: seq<(string, Scalar)>, k: string)
    requires UniqueKeys(p)
    ensures Get(Stringified(p), k) == match Get(p, k) case None => None case Some(v) => QueryText(v)
    decreases |p|
  {
    if |p| > 0 {
      var init := p[..|p| - 1];
      var last := p[|p| - 1];
      assert p == init + [last];
      GetStringified(init, k);
      GetSnoc(init, last, k);
      if last.0 == k {
        StringifiedKeys(init, k);
      }
      match QueryText(last.1)
      case None =>
      case Some(t) => GetSnoc(Stringified(init), (last.0, t), k);
    }
  }

  /** Key lookup in a lifted array. */
  lemma GetLift(m: seq<(string, string)>, k: string)
    ensures Get(Lift(m), k) == match Get(m, k) case None => None case Some(s) => Some(SString(s))
  {
    FindIs(Lift(m), k, Find(m, k));
  }

  lemma UniqueKeysLift(m: seq<(string, string)>)
    requires UniqueKeys(m)
    ensures UniqueKeys(Lift(m))
  {
  }
}
