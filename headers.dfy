/**
 * The header collection of a PSR-7 message: an ordered list of header
 * names, each with its list of values, looked up without regard to the
 * case of ASCII letters, while each name keeps the casing it was stored
 * with.
 */
module MessageHeaders {
  import opened Wrappers
  import opened PhpStrings

  datatype Header = Header(name: string, values: seq<string>)

  type Headers = seq<Header>

  /** Two header names denote the same header when they agree up to ASCII case. */
  predicate SameName(a: string, b: string) {
    ToLower(a) == ToLower(b)
  }

  /** No header is listed twice. */
  predicate WellFormed(h: Headers) {
    forall i, j :: 0 <= i < j < |h| ==> !SameName(h[i].name, h[j].name)
  }

  /** Position of the header called `name`, in any casing. */
  function Find(h: Headers, name: string): (r: Option<nat>)
    ensures r.None? <==> forall i :: 0 <= i < |h| ==> !SameName(h[i].name, name)
    ensures r.Some? ==> r.value < |h| && SameName(h[r.value].name, name) &&
                        forall i :: 0 <= i < r.value ==> !SameName(h[i].name, name)
  {
    if |h| == 0 then None
    else if SameName(h[0].name, name) then Some(0)
    else match Find(h[1..], name)
      case None => None
      case Some(i) => Some(i + 1)
  }

  lemma FindIs(h: Headers, name: string, r: Option<nat>)
    requires r.None? ==> forall i :: 0 <= i < |h| ==> !SameName(h[i].name, name)
    requires r.Some? ==> r.value < |h| && SameName(h[r.value].name, name) &&
                         forall i :: 0 <= i < r.value ==> !SameName(h[i].name, name)
    ensures Find(h, name) == r
  {
  }

  /** `hasHeader`. */
  predicate Has(h: Headers, name: string) {
    Find(h, name).Some?
  }

  /** `getHeader`: the values of the header, or none when it is absent. */
  function Get(h: Headers, name: string): seq<string> {
    match Find(h, name)
    case None => []
    case Some(i) => h[i].values
  }

  /** `getHeaderLine`: the values joined by ", ". */
  function Line(h: Headers, name: string): string {
    Join(Get(h, name), ", ")
  }

  /** Looking a header up does not depend on the casing of its name. */
  lemma GetIgnoresCase(h: Headers, a: string, b: string)
    requires SameName(a, b)
    ensures Get(h, a) == Get(h, b) && Has(h, a) == Has(h, b)
  {
    FindIs(h, b, Find(h, a));
  }

  lemma GetCons(x: Header, t: Headers, name: string)
    ensures Get([x] + t, name) == if SameName(x.name, name) then x.values else Get(t, name)
  {
    var h := [x] + t;
    assert h[1..] == t;
  }

  lemma HasCons(x: Header, t: Headers, name: string)
    ensures Has([x] + t, name) == (SameName(x.name, name) || Has(t, name))
  {
    var h := [x] + t;
    assert h[1..] == t;
  }

  /** `withoutHeader`: every header of that name, in any casing, is dropped. */
  function Remove(h: Headers, name: string): (r: Headers)
    ensures !Has(r, name) && Get(r, name) == []
    ensures forall n {:trigger Get(r, n)} :: !SameName(n, name) ==> Get(r, n) == Get(h, n)
    ensures !Has(h, name) ==> r == h
  {
    if |h| == 0 then []
    else
      var rest := Remove(h[1..], name);
      assert h == [h[0]] + h[1..];
      HasCons(h[0], h[1..], name);
      if SameName(h[0].name, name) then
        forall n | !SameName(n, name)
          ensures Get(rest, n) == Get(h, n)
        {
          GetCons(h[0], h[1..], n);
        }
        rest
      else
        var r := [h[0]] + rest;
        HasCons(h[0], rest, name);
        GetCons(h[0], rest, name);
        forall n | !SameName(n, name)
          ensures Get(r, n) == Get(h, n)
        {
          GetCons(h[0], rest, n);
          GetCons(h[0], h[1..], n);
        }
        r
  }

  /** Removing keeps only headers that were there. */
  lemma {:induction false} RemoveKeepsMembers(h: Headers, name: string)
    ensures forall x :: x in Remove(h, name) ==> x in h
    decreases |h|
  {
    if |h| > 0 {
      RemoveKeepsMembers(h[1..], name);
    }
  }

  /** Removing a header keeps a collection free of repeated names. */
  lemma {:induction false} RemoveWellFormed(h: Headers, name: string)
    ensures WellFormed(h) ==> WellFormed(Remove(h, name))
    decreases |h|
  {
    if |h| > 0 && WellFormed(h) {
      var rest := Remove(h[1..], name);
      RemoveWellFormed(h[1..], name);
      RemoveKeepsMembers(h[1..], name);
      if !SameName(h[0].name, name) {
        var r := [h[0]] + rest;
        assert Remove(h, name) == r;
        forall i, j | 0 <= i < j < |r|
          ensures !SameName(r[i].name, r[j].name)
        {
          if i == 0 {
            assert r[j] in h[1..];
            var k :| 0 <= k < |h[1..]| && h[1..][k] == r[j];
            assert h[k + 1] == r[j];
          } else {
            assert r[i] == rest[i - 1] && r[j] == rest[j - 1];
          }
        }
      }
    }
  }

  /** After removing a header, exactly the other headers are still present. */
  lemma {:induction false} RemoveHas(h: Headers, name: string, n: string)
    ensures Has(Remove(h, name), n) == (!SameName(n, name) && Has(h, n))
    decreases |h|
  {
    if |h| > 0 {
      var rest := Remove(h[1..], name);
      RemoveHas(h[1..], name, n);
      assert h == [h[0]] + h[1..];
      HasCons(h[0], h[1..], n);
      if !SameName(h[0].name, name) {
        HasCons(h[0], rest, n);
      }
    }
  }

  /** Looking a header up in a list with one more header at the end. */
  lemma GetSnoc(h: Headers, x: Header, n: string)
    ensures Has(h + [x], n) == (Has(h, n) || SameName(x.name, n))
    ensures Get(h + [x], n) == if Has(h, n) then Get(h, n) else if SameName(x.name, n) then x.values else []
  {
    var r := h + [x];
    if Has(h, n) {
      FindIs(r, n, Find(h, n));
    } else if SameName(x.name, n) {
      FindIs(r, n, Some(|h|));
    } else {
      FindIs(r, n, None);
    }
  }

  /** A header appended to a list that lacks its name keeps the list free of repeated names. */
  lemma SnocWellFormed(h: Headers, x: Header)
    ensures WellFormed(h) && !Has(h, x.name) ==> WellFormed(h + [x])
  {
    var r := h + [x];
    forall i, j | 0 <= i < j < |r| && WellFormed(h) && !Has(h, x.name)
      ensures !SameName(r[i].name, r[j].name)
    {
      if j == |h| {
        assert !SameName(h[i].name, x.name);
      } else {
        assert r[i] == h[i] && r[j] == h[j];
      }
    }
  }

  /**
   * `withHeader`: the header is replaced by the given values under the
   * given casing, and moves to the end of the list.
   */
  function Set(h: Headers, name: string, values: seq<string>): (r: Headers)
    ensures Get(r, name) == values && Has(r, name)
    ensures forall n {:trigger Get(r, n)} :: !SameName(n, name) ==> Get(r, n) == Get(h, n)
    ensures WellFormed(h) ==> WellFormed(r)
    ensures |r| > 0 && r[|r| - 1] == Header(name, values)
  {
    var rest := Remove(h, name);
    var x := Header(name, values);
    GetSnoc(rest, x, name);
    forall n | !SameName(n, name)
      ensures Get(rest + [x], n) == Get(h, n)
    {
      GetSnoc(rest, x, n);
      assert Get(rest, n) == Get(h, n);
    }
    RemoveWellFormed(h, name);
    SnocWellFormed(rest, x);
    rest + [x]
  }

  /** After `withHeader`, the other headers are present exactly when they were before. */
  lemma SetHas(h: Headers, name: string, values: seq<string>, n: string)
    requires !SameName(n, name)
    ensures Has(Set(h, name, values), n) == Has(h, n)
  {
    var rest := Remove(h, name);
    RemoveHas(h, name, n);
    FindIs(rest + [Header(name, values)], n, Find(rest, n));
  }

  /**
   * `withAddedHeader`: the values are appended to those already present;
   * a header already present keeps its casing and its place, a new one is
   * added at the end.
   */
  function Add(h: Headers, name: string, values: seq<string>): (r: Headers)
    ensures Get(r, name) == Get(h, name) + values && Has(r, name)
    ensures forall n {:trigger Get(r, n)} :: !SameName(n, name) ==> Get(r, n) == Get(h, n)
    ensures WellFormed(h) ==> WellFormed(r)
    ensures Has(h, name) ==> |r| == |h| && forall i :: 0 <= i < |h| ==> r[i].name == h[i].name
    ensures !Has(h, name) ==> r == h + [Header(name, values)]
  {
    match Find(h, name)
    case None =>
      AddNewFacts(h, name, values);
      h + [Header(name, values)]
    case Some(i) =>
      AddExistingFacts(h, name, values, i);
      h[i := Header(h[i].name, h[i].values + values)]
  }

  /** `withAddedHeader` of a header not yet present appends it. */
  lemma AddNewFacts(h: Headers, name: string, values: seq<string>)
    requires !Has(h, name)
    ensures var r := h + [Header(name, values)];
      Get(r, name) == Get(h, name) + values && Has(r, name) &&
      (forall n {:trigger Get(r, n)} :: !SameName(n, name) ==> Get(r, n) == Get(h, n)) &&
      (WellFormed(h) ==> WellFormed(r))
  {
    var x := Header(name, values);
    GetSnoc(h, x, name);
    forall n | !SameName(n, name)
      ensures Get(h + [x], n) == Get(h, n)
    {
      GetSnoc(h, x, n);
    }
    SnocWellFormed(h, x);
  }

  /** `withAddedHeader` of a present header extends its values in place. */
  lemma AddExistingFacts(h: Headers, name: string, values: seq<string>, i: nat)
    requires Find(h, name) == Some(i)
    ensures var r := h[i := Header(h[i].name, h[i].values + values)];
      Get(r, name) == Get(h, name) + values && Has(r, name) &&
      (forall n {:trigger Get(r, n)} :: !SameName(n, name) ==> Get(r, n) == Get(h, n)) &&
      (WellFormed(h) ==> WellFormed(r)) &&
      |r| == |h| && (forall j :: 0 <= j < |h| ==> r[j].name == h[j].name)
  {
    var r := h[i := Header(h[i].name, h[i].values + values)];
    forall n
      ensures Find(r, n) == Find(h, n)
    {
      SameNamesSameFind(h, r, n);
    }
  }

  /** Two lists with the same names, position by position, find every header at the same place. */
  lemma SameNamesSameFind(h: Headers, r: Headers, n: string)
    requires |r| == |h| && forall i :: 0 <= i < |h| ==> r[i].name == h[i].name
    ensures Find(r, n) == Find(h, n)
  {
    FindIs(r, n, Find(h, n));
  }
}
