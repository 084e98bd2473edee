/**
 * The header helpers the drivers share: turning the header map into wire
 * lines, and supplying a header only when it is missing.
 */
module Drivers {
  import opened MessageHeaders

  /** One `name: value` line per value of a header, in value order. */
  function ValueLines(x: Header): (r: seq<string>)
    ensures |r| == |x.values|
    ensures forall j :: 0 <= j < |x.values| ==> r[j] == x.name + ": " + x.values[j]
  {
    seq(|x.values|, j requires 0 <= j < |x.values| => x.name + ": " + x.values[j])
  }

  /** The wire lines of a header map: header order, then value order. */
  function HeaderLines(h: Headers): seq<string> {
    if h == [] then [] else HeaderLines(h[..|h| - 1]) + ValueLines(h[|h| - 1])
  }

  /** The number of values across all headers. */
  function ValueCount(h: Headers): nat {
    if h == [] then 0 else ValueCount(h[..|h| - 1]) + |h[|h| - 1].values|
  }

  /** There is exactly one line per header value. */
  lemma {:induction false} HeaderLinesCount(h: Headers)
    ensures |HeaderLines(h)| == ValueCount(h)
  {
    if h != [] {
      HeaderLinesCount(h[..|h| - 1]);
    }
  }

  /** The lines of two header maps in a row are the lines of the first, then those of the second. */
  lemma {:induction false} HeaderLinesConcat(a: Headers, b: Headers)
    ensures HeaderLines(a + b) == HeaderLines(a) + HeaderLines(b)
    decreases |b|
  {
    if b == [] {
      assert a + b == a;
    } else {
      var front := b[..|b| - 1];
      var last := b[|b| - 1];
      var ab := a + b;
      assert ab[..|ab| - 1] == a + front;
      assert ab[|ab| - 1] == last;
      assert HeaderLines(ab) == HeaderLines(a + front) + ValueLines(last);
      assert HeaderLines(b) == HeaderLines(front) + ValueLines(last);
      HeaderLinesConcat(a, front);
    }
  }

  /** A header with no value produces no line; one in front of others contributes its lines first. */
  lemma HeaderLinesCons(x: Header, t: Headers)
    ensures HeaderLines([x] + t) == ValueLines(x) + HeaderLines(t)
    ensures x.values == [] ==> HeaderLines([x] + t) == HeaderLines(t)
  {
    HeaderLinesConcat([x], t);
    assert [x][..0] == [];
  }

  /** `marshalHeaders`: builds the wire lines of `headers` by appending, one value at a time. */
  method MarshalHeaders(headers: Headers) returns (lines: seq<string>)
    ensures lines == HeaderLines(headers)
  {
    lines := [];
    var i := 0;
    while i < |headers|
      invariant 0 <= i <= |headers|
      invariant lines == HeaderLines(headers[..i])
    {
      var header := headers[i];
      var j := 0;
      while j < |header.values|
        invariant 0 <= j <= |header.values|
        invariant lines == HeaderLines(headers[..i]) + ValueLines(header)[..j]
      {
        lines := lines + [header.name + ": " + header.values[j]];
        assert ValueLines(header)[..j + 1] == ValueLines(header)[..j] + [header.name + ": " + header.values[j]];
        j := j + 1;
      }
      assert headers[..i + 1][..i] == headers[..i];
      assert ValueLines(header)[..j] == ValueLines(header);
      i := i + 1;
    }
    assert headers[..i] == headers;
  }

  /** `if (!$request->hasHeader($name)) $request = $request->withHeader($name, $value)`. */
  function WithDefault(h: Headers, name: string, value: string): (r: Headers)
    ensures Has(r, name)
    ensures Get(r, name) == if Has(h, name) then Get(h, name) else [value]
    ensures forall n {:trigger Get(r, n)} :: !SameName(n, name) ==> Get(r, n) == Get(h, n)
    ensures WellFormed(h) ==> WellFormed(r)
  {
    if Has(h, name) then h else Set(h, name, [value])
  }

  /** Supplying a default leaves the presence of the other headers as it was. */
  lemma WithDefaultHas(h: Headers, name: string, value: string, n: string)
    requires !SameName(n, name)
    ensures Has(WithDefault(h, name, value), n) == Has(h, n)
  {
    if !Has(h, name) {
      SetHas(h, name, [value], n);
    }
  }
}
