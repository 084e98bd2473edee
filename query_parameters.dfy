/**
 * The query-string side of a request context: the parameters are the
 * `parse_str` reading of the URI query, and every change to them writes
 * the query back with `http_build_query`.
 */
module QueryParameters {
  import opened Wrappers
  import opened PhpStrings
  import opened PhpArrays
  import opened Values
  import opened FormEncoding

  /** A flat PHP array that `http_build_query` and `parse_str` agree on: no key twice, none empty. */
  predicate Writable(p: seq<(string, Scalar)>) {
    UniqueKeys(p) && forall i :: 0 <= i < |p| ==> p[i].0 != ""
  }

  /** `getQueryParameters`: the parameters of a query string. */
  function Decode(query: string): (r: seq<(string, string)>)
    ensures Writable(Lift(r))
  {
    var r := ParseQuery(query);
    ParseQueryWellFormed(Tokens(query, '&'));
    UniqueKeysLift(r);
    r
  }

  /** `withQueryParameter(name, value)`: the query with `name` set to `value`. */
  function WithParameter(query: string, name: string, value: Scalar): string {
    BuildQuery(Assign(Lift(Decode(query)), name, value))
  }

  /** `withoutQueryParameter(name)`: the query without `name`. */
  function WithoutParameter(query: string, name: string): string {
    BuildQuery(Unset(Lift(Decode(query)), name))
  }

  /** Parameters stored with `withQueryParameters` read back as their non-null entries, as text. */
  lemma DecodeEncoded(p: seq<(string, Scalar)>)
    requires Writable(p)
    ensures Decode(BuildQuery(p)) == Stringified(p)
    ensures forall k :: Get(Decode(BuildQuery(p)), k) == match Get(p, k) case None => None case Some(v) => QueryText(v)
  {
    ParseBuild(p);
    forall k
      ensures Get(Decode(BuildQuery(p)), k) == match Get(p, k) case None => None case Some(v) => QueryText(v)
    {
      GetStringified(p, k);
    }
  }

  /** Re-encoding what a query decodes to reads back the same parameters. */
  lemma DecodeReencoded(query: string)
    ensures Decode(BuildQuery(Lift(Decode(query)))) == Decode(query)
  {
    DecodeEncoded(Lift(Decode(query)));
    StringifiedLift(Decode(query));
  }

  /**
   * After `withQueryParameter(name, value)`, `getQueryParameter(name)` is
   * the value's text ("1" for true, none for null) and every other
   * parameter reads as before.
   */
  lemma ParameterAfterSet(query: string, name: string, value: Scalar)
    requires name != ""
    ensures Get(Decode(WithParameter(query, name, value)), name) == QueryText(value)
    ensures forall k {:trigger Get(Decode(WithParameter(query, name, value)), k)} :: k != name ==> Get(Decode(WithParameter(query, name, value)), k) == Get(Decode(query), k)
  {
    var m := Decode(query);
    var p := Assign(Lift(m), name, value);
    assert Writable(p) by {
      if Find(Lift(m), name).Some? {
        forall i | 0 <= i < |p|
          ensures p[i].0 != ""
        {
          assert Keys(p)[i] == Keys(Lift(m))[i];
        }
      }
    }
    DecodeEncoded(p);
    forall k | k != name
      ensures Get(Decode(WithParameter(query, name, value)), k) == Get(m, k)
    {
      GetLift(m, k);
    }
  }

  /** Setting a parameter to null on an empty query leaves the query empty. */
  lemma NullParameterOnEmptyQuery(name: string)
    ensures WithParameter("", name, SNull) == ""
  {
    assert Tokens("", '&') == [];
    assert Decode("") == [];
    var p := Assign(Lift(Decode("")), name, SNull);
    assert p == [(name, SNull)];
    assert p[..0] == [];
    assert Pairs(p) == Pairs(p[..0]) == [];
  }

  /**
   * After `withoutQueryParameter(name)` the parameter is gone and the
   * others read as before; when it was absent, nothing changes.
   */
  lemma ParameterAfterUnset(query: string, name: string)
    ensures Get(Decode(WithoutParameter(query, name)), name) == None
    ensures forall k {:trigger Get(Decode(WithoutParameter(query, name)), k)} :: k != name ==> Get(Decode(WithoutParameter(query, name)), k) == Get(Decode(query), k)
    ensures Get(Decode(query), name).None? ==> Decode(WithoutParameter(query, name)) == Decode(query)
  {
    var m := Decode(query);
    var p := Unset(Lift(m), name);
    assert Writable(p) by {
      forall i | 0 <= i < |p|
        ensures p[i].0 != ""
      {
        assert p[i] in Lift(m);
      }
    }
    DecodeEncoded(p);
    forall k
      ensures Get(Decode(WithoutParameter(query, name)), k) == (if k == name then None else Get(m, k))
    {
      GetLift(m, k);
    }
    if Get(m, name).None? {
      GetLift(m, name);
      DecodeReencoded(query);
    }
  }

  /** Letters, digits and "-_." are written as they are. */
  lemma {:induction false} UrlEncodePlain(s: string)
    requires forall i :: 0 <= i < |s| ==> Unreserved(s[i])
    ensures UrlEncode(s) == s
  {
    if |s| > 0 {
      UrlEncodePlain(s[1..]);
    }
  }

  /** Two string parameters are written in order, joined by '&'. */
  lemma TwoParameters()
    ensures BuildQuery([("foo", SString("bar")), ("baz", SString("quz"))]) == "foo=bar&baz=quz"
  {
    TwoStringParameters("foo", "bar", "baz", "quz");
    PlainPair("foo", "bar");
    PlainPair("baz", "quz");
    assert "foo" + "=" + "bar" + "&" + ("baz" + "=" + "quz") == "foo=bar&baz=quz";
  }

  /** Two string entries give their two pairs joined by '&'. */
  lemma TwoStringParameters(k1: string, v1: string, k2: string, v2: string)
    ensures BuildQuery([(k1, SString(v1)), (k2, SString(v2))]) ==
            UrlEncode(k1) + "=" + UrlEncode(v1) + "&" + (UrlEncode(k2) + "=" + UrlEncode(v2))
  {
    var first := [(k1, SString(v1))];
    var both := [(k1, SString(v1)), (k2, SString(v2))];
    var a := UrlEncode(k1) + "=" + UrlEncode(v1);
    var b := UrlEncode(k2) + "=" + UrlEncode(v2);
    var none: seq<(string, Scalar)> := [];
    assert none + first == first;
    assert Pairs(none) == [];
    PairsSnocString(none, k1, v1);
    assert Pairs(first) == [a];
    assert both == first + [(k2, SString(v2))];
    PairsSnocString(first, k2, v2);
    assert Pairs(both) == [a] + [b] == [a, b];
    JoinTwo(a, b, "&");
  }

  lemma JoinTwo(a: string, b: string, sep: string)
    ensures Join([a, b], sep) == a + sep + b
  {
    assert [a, b][..1] == [a];
  }

  /** A key and a value made of plain characters are written as `key=value`. */
  lemma PlainPair(k: string, v: string)
    requires forall i :: 0 <= i < |k| ==> Unreserved(k[i])
    requires forall i :: 0 <= i < |v| ==> Unreserved(v[i])
    ensures UrlEncode(k) + "=" + UrlEncode(v) == k + "=" + v
  {
    UrlEncodePlain(k);
    UrlEncodePlain(v);
  }

  /** A string entry at the end adds its pair at the end. */
  lemma PairsSnocString(p: seq<(string, Scalar)>, k: string, v: string)
    ensures Pairs(p + [(k, SString(v))]) == Pairs(p) + [UrlEncode(k) + "=" + UrlEncode(v)]
  {
    var q := p + [(k, SString(v))];
    assert q[..|q| - 1] == p;
  }
}
