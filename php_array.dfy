/**
 * PHP arrays with string keys: ordered maps. Assigning to a key that exists
 * replaces its value in place; assigning to a new key appends it.
 */
module PhpArray {
  import opened Wrappers

  /** An ordered map as its list of entries, in insertion order. */
  type OrderedMap<V> = seq<(string, V)>

  function Keys<V>(a: OrderedMap<V>): (ks: seq<string>)
    ensures |ks| == |a| && forall i :: 0 <= i < |a| ==> ks[i] == a[i].0
  {
    seq(|a|, i requires 0 <= i < |a| => a[i].0)
  }

  /** Every key occurs once, as in every PHP array. */
  ghost predicate DistinctKeys<V>(a: OrderedMap<V>) {
    forall i, j :: 0 <= i < j < |a| ==> a[i].0 != a[j].0
  }

  /** The index of key k, if it is present. */
  function IndexOfKey<V>(a: OrderedMap<V>, k: string): (r: Option<nat>)
    ensures r.Some? ==> r.value < |a| && a[r.value].0 == k && forall j :: 0 <= j < r.value ==> a[j].0 != k
    ensures r.None? ==> forall j :: 0 <= j < |a| ==> a[j].0 != k
  {
    if a == [] then None
    else if a[0].0 == k then Some(0)
    else match IndexOfKey(a[1..], k)
      case None => None
      case Some(i) => Some(i + 1)
  }

  /** $a[$k], or null when the key is missing. */
  function Lookup<V>(a: OrderedMap<V>, k: string): (r: Option<V>)
    ensures r.Some? <==> exists j :: 0 <= j < |a| && a[j].0 == k
  {
    match IndexOfKey(a, k)
    case None => None
    case Some(i) => Some(a[i].1)
  }

  /** $a[$k] is the value of the first entry whose key is $k. */
  lemma LookupFirst<V>(a: OrderedMap<V>, k: string, j: nat)
    requires j < |a| && a[j].0 == k
    requires forall i :: 0 <= i < j ==> a[i].0 != k
    ensures Lookup(a, k) == Some(a[j].1)
  {
    var r := IndexOfKey(a, k);
    assert r.Some?;
    assert !(r.value < j) && !(j < r.value);
  }

  /** $a[$k] = $v. */
  function Put<V>(a: OrderedMap<V>, k: string, v: V): (r: OrderedMap<V>)
    ensures DistinctKeys(a) ==> DistinctKeys(r)
    ensures Lookup(r, k) == Some(v)
    ensures forall k' :: k' != k ==> Lookup(r, k') == Lookup(a, k')
    ensures (forall j :: 0 <= j < |a| ==> a[j].0 != k) ==> r == a + [(k, v)]
    ensures IndexOfKey(a, k).Some? ==>
      |r| == |a| && r[IndexOfKey(a, k).value] == (k, v)
      && forall j :: 0 <= j < |a| && j != IndexOfKey(a, k).value ==> r[j] == a[j]
  {
    match IndexOfKey(a, k)
    case None =>
      var r := a + [(k, v)];
      IndexOfKeyIs(r, k, Some(|a|));
      forall k' | k' != k ensures Lookup(r, k') == Lookup(a, k') {
        IndexOfKeyIs(r, k', IndexOfKey(a, k'));
      }
      r
    case Some(i) =>
      var r := a[i := (k, v)];
      IndexOfKeyIs(r, k, Some(i));
      forall k' | k' != k ensures Lookup(r, k') == Lookup(a, k') {
        IndexOfKeyIs(r, k', IndexOfKey(a, k'));
      }
      r
  }

  /** The first-index property determines IndexOfKey. */
  lemma IndexOfKeyIs<V>(a: OrderedMap<V>, k: string, r: Option<nat>)
    requires r.Some? ==> r.value < |a| && a[r.value].0 == k && forall j :: 0 <= j < r.value ==> a[j].0 != k
    requires r.None? ==> forall j :: 0 <= j < |a| ==> a[j].0 != k
    ensures IndexOfKey(a, k) == r
  {
  }

  /** The array read as a plain dictionary (what strtr consults). */
  function ToMap<V>(a: OrderedMap<V>): (m: map<string, V>)
    ensures m.Keys == set i | 0 <= i < |a| :: a[i].0
  {
    if a == [] then map[]
    else
      var m := ToMap(a[..|a| - 1]);
      var r := m[a[|a| - 1].0 := a[|a| - 1].1];
      assert r.Keys == set i | 0 <= i < |a| :: a[i].0 by {
        forall x | x in r.Keys ensures x in set i | 0 <= i < |a| :: a[i].0 {
          if x != a[|a| - 1].0 {
            var i :| 0 <= i < |a| - 1 && a[..|a| - 1][i].0 == x;
            assert a[i].0 == x;
          }
        }
        forall i | 0 <= i < |a| ensures a[i].0 in r.Keys {
          if i < |a| - 1 {
            assert a[..|a| - 1][i].0 == a[i].0;
          }
        }
      }
      r
  }

  /** Appending is associative; stated once so that callers need not rediscover it. */
  lemma AppendAssoc<T>(a: seq<T>, b: seq<T>, c: seq<T>)
    ensures a + b + c == a + (b + c)
  {
  }
}
