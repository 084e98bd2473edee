/**
 * PHP arrays with string keys: ordered maps in which assignment to a
 * present key keeps its position, assignment to a new key appends and
 * `unset` removes the key.
 */
module PhpArrays {
  import opened Wrappers

  function Keys<V>(a: seq<(string, V)>): (r: seq<string>)
    ensures |r| == |a|
    ensures forall i :: 0 <= i < |a| ==> r[i] == a[i].0
  {
    if |a| == 0 then [] else [a[0].0] + Keys(a[1..])
  }

  /** What makes a sequence of pairs a PHP array: no key twice. */
  predicate UniqueKeys<V>(a: seq<(string, V)>) {
    forall i, j :: 0 <= i < j < |a| ==> a[i].0 != a[j].0
  }

  /** Position of key `k`. */
  function Find<V>(a: seq<(string, V)>, k: string): (r: Option<nat>)
    ensures r.None? <==> forall i :: 0 <= i < |a| ==> a[i].0 != k
    ensures r.Some? ==> r.value < |a| && a[r.value].0 == k &&
                        forall i :: 0 <= i < r.value ==> a[i].0 != k
  {
    if |a| == 0 then None
    else if a[0].0 == k then Some(0)
    else match Find(a[1..], k)
      case None => None
      case Some(i) => Some(i + 1)
  }

  /** `$a[$k] ?? null`. */
  function Get<V>(a: seq<(string, V)>, k: string): Option<V> {
    match Find(a, k)
    case None => None
    case Some(i) => Some(a[i].1)
  }

  /** `Find` is pinned down by its contract. */
  lemma FindIs<V>(a: seq<(string, V)>, k: string, r: Option<nat>)
    requires r.None? ==> forall i :: 0 <= i < |a| ==> a[i].0 != k
    requires r.Some? ==> r.value < |a| && a[r.value].0 == k &&
                         forall i :: 0 <= i < r.value ==> a[i].0 != k
    ensures Find(a, k) == r
  {
  }

  lemma GetCons<V>(x: (string, V), t: seq<(string, V)>, k: string)
    ensures Get([x] + t, k) == if x.0 == k then Some(x.1) else Get(t, k)
  {
    var a := [x] + t;
    assert a[1..] == t;
  }

  /** `$a[$k] = $v`. */
  function Assign<V>(a: seq<(string, V)>, k: string, v: V): (r: seq<(string, V)>)
    ensures Get(r, k) == Some(v)
    ensures forall k' {:trigger Get(r, k')} :: k' != k ==> Get(r, k') == Get(a, k')
    ensures Find(a, k).Some? ==> Keys(r) == Keys(a)
    ensures Find(a, k).None? ==> r == a + [(k, v)]
    ensures UniqueKeys(a) ==> UniqueKeys(r)
  {
    match Find(a, k)
    case None =>
      var r := a + [(k, v)];
      FindIs(r, k, Some(|a|));
      forall k' | k' != k {
        FindIs(r, k', Find(a, k'));
      }
      r
    case Some(i) =>
      var r := a[i := (k, v)];
      FindIs(r, k, Some(i));
      forall k' | k' != k {
        FindIs(r, k', Find(a, k'));
      }
      r
  }

  /** `unset($a[$k])`. */
  function Unset<V>(a: seq<(string, V)>, k: string): (r: seq<(string, V)>)
    ensures Get(r, k) == None
    ensures forall k' {:trigger Get(r, k')} :: k' != k ==> Get(r, k') == Get(a, k')
    ensures Find(a, k).None? ==> r == a
    ensures UniqueKeys(a) ==> UniqueKeys(r)
    ensures forall i :: 0 <= i < |r| ==> r[i] in a
  {
    if |a| == 0 then []
    else
      var rest := Unset(a[1..], k);
      if a[0].0 == k then
        rest
      else
        var r := [a[0]] + rest;
        assert a == [a[0]] + a[1..];
        forall k' | k' != k
          ensures Get(r, k') == Get(a, k')
        {
          GetCons(a[0], rest, k');
          GetCons(a[0], a[1..], k');
        }
        ConsKeepsUnique(a[0], a[1..], rest);
        r
  }

  /** An entry in front of some of the entries it was already in front of keeps the keys unique. */
  lemma ConsKeepsUnique<V>(x: (string, V), t: seq<(string, V)>, rest: seq<(string, V)>)
    requires forall i :: 0 <= i < |rest| ==> rest[i] in t
    ensures UniqueKeys([x] + t) && UniqueKeys(rest) ==> UniqueKeys([x] + rest)
  {
    var a := [x] + t;
    var r := [x] + rest;
    forall i, j | 0 <= i < j < |r| && UniqueKeys(a) && UniqueKeys(rest)
      ensures r[i].0 != r[j].0
    {
      if i == 0 {
        var m :| 0 <= m < |t| && t[m] == rest[j - 1];
        assert a[0] == x && a[m + 1] == t[m];
      } else {
        assert r[i] == rest[i - 1] && r[j] == rest[j - 1];
      }
    }
  }

  /** Looking a key up in an array with one more entry at the end. */
  lemma GetSnoc<V>(a: seq<(string, V)>, x: (string, V), k: string)
    ensures Get(a + [x], k) == if Find(a, k).Some? then Get(a, k) else if x.0 == k then Some(x.1) else None
  {
    var r := a + [x];
    if Find(a, k).Some? {
      FindIs(r, k, Find(a, k));
    } else if x.0 == k {
      FindIs(r, k, Some(|a|));
    } else {
      FindIs(r, k, None);
    }
  }
}
