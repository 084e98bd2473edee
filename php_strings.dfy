/**
 * The PHP string functions the client relies on: `trim`, `strtolower`,
 * `strtok`, `implode`, `explode`, integer-to-string casts and truthiness of
 * strings.  A PHP string is a byte string; here each character stands for
 * one byte.
 */
module PhpStrings {
  import opened Wrappers

  /** The characters `trim` strips when no list is given: " \t\n\r\0\x0B". */
  predicate IsTrimChar(c: char) {
    c == ' ' || c == '\t' || c == '\n' || c == '\r' || c as int == 0 || c as int == 0x0B
  }

  /** A string PHP converts to `false`: the empty string and "0". */
  predicate IsFalsy(s: string) {
    s == "" || s == "0"
  }

  /** Whether a string has nothing `trim` would remove at either end. */
  predicate IsTrimmed(s: string) {
    |s| == 0 || (!IsTrimChar(s[0]) && !IsTrimChar(s[|s| - 1]))
  }

  /** Number of trim characters at the start of `s`. */
  function LeadingTrim(s: string): (n: nat)
    ensures n <= |s|
    ensures forall k :: 0 <= k < n ==> IsTrimChar(s[k])
    ensures n < |s| ==> !IsTrimChar(s[n])
  {
    if |s| == 0 || !IsTrimChar(s[0]) then 0 else 1 + LeadingTrim(s[1..])
  }

  /** Number of trim characters at the end of `s`. */
  function TrailingTrim(s: string): (n: nat)
    ensures n <= |s|
    ensures forall k :: |s| - n <= k < |s| ==> IsTrimChar(s[k])
    ensures n < |s| ==> !IsTrimChar(s[|s| - n - 1])
  {
    if |s| == 0 || !IsTrimChar(s[|s| - 1]) then 0 else 1 + TrailingTrim(s[..|s| - 1])
  }

  /**
   * PHP `trim`: the slice of `s` left once every trim character is removed
   * from both ends.
   */
  function Trim(s: string): (r: string)
    ensures IsTrimmed(r)
    ensures exists i, j :: 0 <= i <= j <= |s| && r == s[i..j] &&
              (forall k :: 0 <= k < i ==> IsTrimChar(s[k])) &&
              (forall k :: j <= k < |s| ==> IsTrimChar(s[k]))
  {
    var i := LeadingTrim(s);
    var t := s[i..];
    var r := t[..|t| - TrailingTrim(t)];
    assert r == s[i..i + |r|];
    r
  }

  /** Trimming a string with no trim character at its ends leaves it as it is. */
  lemma TrimKeepsTrimmed(s: string)
    requires IsTrimmed(s)
    ensures Trim(s) == s
  {
  }

  /** `trim` is idempotent. */
  lemma TrimIdempotent(s: string)
    ensures Trim(Trim(s)) == Trim(s)
  {
    TrimKeepsTrimmed(Trim(s));
  }

  /** Trimming never lets a character in that was not there. */
  lemma TrimSubset(s: string, c: char)
    requires c !in s
    ensures c !in Trim(s)
  {
    var i, j :| 0 <= i <= j <= |s| && Trim(s) == s[i..j];
  }

  predicate IsUpper(c: char) {
    'A' <= c <= 'Z'
  }

  /** Lower-case form of one character; only ASCII letters change. */
  function AsciiLower(c: char): char {
    if IsUpper(c) then (c as int + 32) as char else c
  }

  /**
   * PHP `strtolower` (and PSR-7's header-name normalisation): ASCII
   * upper-case letters become lower case, every other character stays.
   */
  function ToLower(s: string): string {
    if |s| == 0 then "" else [AsciiLower(s[0])] + ToLower(s[1..])
  }

  /** What `strtolower` does to each character. */
  lemma {:induction false} ToLowerChars(s: string)
    ensures |ToLower(s)| == |s|
    ensures forall i :: 0 <= i < |s| ==> !IsUpper(ToLower(s)[i])
    ensures forall i :: 0 <= i < |s| && !IsUpper(s[i]) ==> ToLower(s)[i] == s[i]
    ensures forall i :: 0 <= i < |s| && IsUpper(s[i]) ==> ToLower(s)[i] as int == s[i] as int + 32
    decreases |s|
  {
    if |s| > 0 {
      ToLowerChars(s[1..]);
    }
  }

  lemma {:induction false} ToLowerIdempotent(s: string)
    ensures ToLower(ToLower(s)) == ToLower(s)
    decreases |s|
  {
    if |s| > 0 {
      ToLowerIdempotent(s[1..]);
    }
  }

  /** Index of the first occurrence of `c`. */
  function IndexOf(s: string, c: char): (r: Option<nat>)
    ensures r.None? <==> c !in s
    ensures r.Some? ==> r.value < |s| && s[r.value] == c && c !in s[..r.value]
  {
    if |s| == 0 then None
    else if s[0] == c then Some(0)
    else match IndexOf(s[1..], c)
      case None => None
      case Some(i) => assert s[1..][..i] == s[1..i + 1]; Some(i + 1)
  }

  /** Index of the last occurrence of `c`. */
  function LastIndexOf(s: string, c: char): (r: Option<nat>)
    ensures r.None? <==> c !in s
    ensures r.Some? ==> r.value < |s| && s[r.value] == c && c !in s[r.value + 1..]
  {
    if |s| == 0 then None
    else if s[|s| - 1] == c then Some(|s| - 1)
    else
      var init := s[..|s| - 1];
      match LastIndexOf(init, c)
      case None => assert s == init + [s[|s| - 1]]; None
      case Some(i) => assert s[i + 1..] == init[i + 1..] + [s[|s| - 1]]; Some(i)
  }

  /** The last occurrence is the one with no further occurrence after it. */
  lemma LastIndexOfAt(s: string, c: char, k: nat)
    requires k < |s| && s[k] == c && c !in s[k + 1..]
    ensures LastIndexOf(s, c) == Some(k)
  {
  }

  /**
   * `explode(c, s, 2)`: the text before the first `c` and, when `c`
   * occurs, the text after it.
   */
  function SplitFirst(s: string, c: char): (r: (string, Option<string>))
    ensures c !in r.0
    ensures r.1.None? <==> c !in s
    ensures r.1.None? ==> r.0 == s
    ensures r.1.Some? ==> s == r.0 + [c] + r.1.value
  {
    match IndexOf(s, c)
    case None => (s, None)
    case Some(i) =>
      assert s == s[..i] + [c] + s[i + 1..];
      (s[..i], Some(s[i + 1..]))
  }

  /** Splitting at the first `c` of a text whose first part holds no `c`. */
  lemma SplitFirstAt(a: string, c: char, b: string)
    requires c !in a
    ensures SplitFirst(a + [c] + b, c) == (a, Some(b))
  {
    var s := a + [c] + b;
    assert s[|a|] == c;
    assert s[..|a|] == a;
    assert s[|a| + 1..] == b;
  }

  /** `implode(sep, parts)`. */
  function Join(parts: seq<string>, sep: string): string
    decreases |parts|
  {
    if |parts| == 0 then ""
    else if |parts| == 1 then parts[0]
    else Join(parts[..|parts| - 1], sep) + sep + parts[|parts| - 1]
  }

  /**
   * The tokens successive `strtok(s, d)` calls hand out: the non-empty
   * pieces of `s` between occurrences of `d`, in order.
   */
  function Tokens(s: string, d: char): seq<string>
    decreases |s|
  {
    match LastIndexOf(s, d)
    case None => if s == "" then [] else [s]
    case Some(i) => Tokens(s[..i], d) + (if i + 1 == |s| then [] else [s[i + 1..]])
  }

  /**
   * The first `strtok(s, d)` call: leading delimiters are skipped, then
   * the token runs up to the next delimiter; `None` stands for PHP's
   * `false`, returned when only delimiters remain.
   */
  function FirstToken(s: string, d: char): (r: Option<string>)
    ensures r.Some? ==> r.value != "" && d !in r.value
    decreases |s|
  {
    if |s| == 0 then None
    else if s[0] == d then FirstToken(s[1..], d)
    else match IndexOf(s, d)
      case None => Some(s)
      case Some(i) => Some(s[..i])
  }

  lemma {:induction false} TokensOfPlain(s: string, d: char)
    requires d !in s
    ensures Tokens(s, d) == if s == "" then [] else [s]
  {
  }

  /** The last delimiter splits the token list in two. */
  lemma TokensAtLast(s: string, d: char, i: nat)
    requires i < |s| && s[i] == d && d !in s[i + 1..]
    ensures Tokens(s, d) == Tokens(s[..i], d) + Tokens(s[i + 1..], d)
  {
    LastIndexOfAt(s, d, i);
    TokensOfPlain(s[i + 1..], d);
  }

  /** Any delimiter splits the token list in two. */
  lemma {:induction false} TokensConcat(a: string, b: string, d: char)
    ensures Tokens(a + [d] + b, d) == Tokens(a, d) + Tokens(b, d)
    decreases |b|
  {
    var s := a + [d] + b;
    match LastIndexOf(b, d)
    case None =>
      assert s[..|a|] == a;
      assert s[|a| + 1..] == b;
      TokensAtLast(s, d, |a|);
    case Some(j) =>
      var k := |a| + 1 + j;
      assert s[k + 1..] == b[j + 1..];
      assert s[..k] == a + [d] + b[..j];
      TokensAtLast(s, d, k);
      TokensConcat(a, b[..j], d);
      TokensAtLast(b, d, j);
  }

  /** The first `strtok` call returns the first of the tokens. */
  lemma {:induction false} FirstTokenIsFirstOfTokens(s: string, d: char)
    ensures FirstToken(s, d) == if Tokens(s, d) == [] then None else Some(Tokens(s, d)[0])
    decreases |s|
  {
    if |s| == 0 {
    } else if s[0] == d {
      assert s == [] + [d] + s[1..];
      TokensConcat([], s[1..], d);
      assert Tokens([], d) == [];
      FirstTokenIsFirstOfTokens(s[1..], d);
    } else {
      match IndexOf(s, d)
      case None =>
        TokensOfPlain(s, d);
      case Some(i) =>
        assert s == s[..i] + [d] + s[i + 1..];
        TokensConcat(s[..i], s[i + 1..], d);
        TokensOfPlain(s[..i], d);
    }
  }

  /** Splitting what `implode` joined gives the pieces back. */
  lemma {:induction false} TokensOfJoin(parts: seq<string>, d: char)
    requires forall i :: 0 <= i < |parts| ==> parts[i] != "" && d !in parts[i]
    ensures Tokens(Join(parts, [d]), d) == parts
    decreases |parts|
  {
    if |parts| == 0 {
    } else if |parts| == 1 {
      TokensOfPlain(parts[0], d);
    } else {
      var init := parts[..|parts| - 1];
      var last := parts[|parts| - 1];
      assert forall i :: 0 <= i < |init| ==> init[i] == parts[i];
      TokensOfJoin(init, d);
      TokensConcat(Join(init, [d]), last, d);
      TokensOfPlain(last, d);
      assert Join(parts, [d]) == Join(init, [d]) + [d] + last;
      assert init + [last] == parts;
    }
  }

  predicate IsDigit(c: char) {
    '0' <= c <= '9'
  }

  predicate IsDigits(s: string) {
    forall i :: 0 <= i < |s| ==> IsDigit(s[i])
  }

  function DigitChar(d: nat): char
    requires d < 10
  {
    ('0' as int + d) as char
  }

  /** Decimal digits of a natural number, as `(string)` writes them. */
  function NatToString(n: nat): (r: string)
    ensures |r| > 0 && IsDigits(r)
    ensures r[0] == '0' ==> n == 0
    decreases n
  {
    if n < 10 then [DigitChar(n)] else NatToString(n / 10) + [DigitChar(n % 10)]
  }

  /** `(string)$i` for a PHP integer. */
  function IntToString(i: int): string {
    if i < 0 then "-" + NatToString(-i) else NatToString(i)
  }

  /** Value of a string of decimal digits, as `(int)` reads it; "" reads as 0. */
  function DigitsValue(s: string): (n: nat)
    requires IsDigits(s)
    decreases |s|
  {
    if |s| == 0 then 0 else DigitsValue(s[..|s| - 1]) * 10 + (s[|s| - 1] as int - '0' as int)
  }

  /** Reading back the digits of a number gives the number. */
  lemma {:induction false} DigitsValueOfNatToString(n: nat)
    ensures DigitsValue(NatToString(n)) == n
    decreases n
  {
    if n >= 10 {
      var s := NatToString(n);
      assert s[..|s| - 1] == NatToString(n / 10);
      DigitsValueOfNatToString(n / 10);
    }
  }

  /** Distinct integers are written differently. */
  lemma IntToStringInjective(i: int, j: int)
    requires IntToString(i) == IntToString(j)
    ensures i == j
  {
    if i < 0 && j < 0 {
      assert NatToString(-i) == IntToString(i)[1..];
      assert NatToString(-j) == IntToString(j)[1..];
      DigitsValueOfNatToString(-i);
      DigitsValueOfNatToString(-j);
    } else if i >= 0 && j >= 0 {
      DigitsValueOfNatToString(i);
      DigitsValueOfNatToString(j);
    }
  }

  type Byte = b: int | 0 <= b < 256

  /**
   * One byte of a PHP string.  Every character of a PHP string is below
   * 256, where this is the character's code.
   */
  function Octet(c: char): Byte {
    (c as int) % 256
  }

  /** The bytes of a PHP string. */
  function Octets(s: string): (r: seq<Byte>)
    ensures |r| == |s|
  {
    seq(|s|, i requires 0 <= i < |s| => Octet(s[i]))
  }
}
