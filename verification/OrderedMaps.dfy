/** A JavaScript `Map`: iteration follows first insertion, overwriting a present key keeps
    its place, and deleting then setting a key moves it to the end. */
module OrderedMaps {
  import opened Common

  datatype OrderedMap<K(==,!new), +V> = OrderedMap(order: seq<K>, entries: map<K, V>) {

    ghost predicate Valid() {
      && (forall i, j :: 0 <= i < j < |order| ==> order[i] != order[j])
      && (forall k :: k in order <==> k in entries)
    }

    predicate Has(k: K) { k in entries }

    function Get(k: K): (v: Option<V>)
      ensures v.Some? <==> k in entries
      ensures v.Some? ==> v.value == entries[k]
    {
      if k in entries then Some(entries[k]) else None
    }

    function Size(): nat { |order| }

    function Set(k: K, v: V): OrderedMap<K, V> {
      OrderedMap(if k in entries then order else order + [k], entries[k := v])
    }

    function Delete(k: K): OrderedMap<K, V> {
      OrderedMap(Without(order, k), entries - {k})
    }
  }

  function Empty<K(==,!new), V>(): OrderedMap<K, V> { OrderedMap([], map[]) }

  function Without<K(==,!new)>(s: seq<K>, k: K): seq<K> {
    if |s| == 0 then [] else
    if s[0] == k then Without(s[1..], k) else [s[0]] + Without(s[1..], k)
  }

  ghost predicate Distinct<K>(s: seq<K>) {
    forall i, j :: 0 <= i < j < |s| ==> s[i] != s[j]
  }

  lemma {:induction false} WithoutMembers<K(!new)>(s: seq<K>, k: K)
    ensures forall x :: x in Without(s, k) <==> x in s && x != k
  {
    if |s| > 0 {
      WithoutMembers(s[1..], k);
      assert s == [s[0]] + s[1..];
    }
  }

  lemma {:induction false} WithoutAbsent<K(!new)>(s: seq<K>, k: K)
    requires k !in s
    ensures Without(s, k) == s
  {
    if |s| > 0 {
      WithoutAbsent(s[1..], k);
      assert s == [s[0]] + s[1..];
    }
  }

  lemma ConsDistinct<K>(x: K, s: seq<K>)
    requires Distinct(s) && x !in s
    ensures Distinct([x] + s)
  {
    forall i, j | 0 <= i < j < |s| + 1 ensures ([x] + s)[i] != ([x] + s)[j] {
      assert ([x] + s)[j] == s[j - 1];
    }
  }

  lemma {:induction false} WithoutDistinct<K(!new)>(s: seq<K>, k: K)
    requires Distinct(s)
    ensures Distinct(Without(s, k))
    ensures |Without(s, k)| == if k in s then |s| - 1 else |s|
  {
    if |s| > 0 {
      var t := s[1..];
      assert s == [s[0]] + t;
      if s[0] == k {
        assert k !in t;
        WithoutAbsent(t, k);
      } else {
        WithoutDistinct(t, k);
        WithoutMembers(t, k);
        ConsDistinct(s[0], Without(t, k));
      }
    }
  }

  lemma DeleteValid<K(!new), V>(m: OrderedMap<K, V>, k: K)
    requires m.Valid()
    ensures m.Delete(k).Valid()
    ensures m.Delete(k).Size() == if m.Has(k) then m.Size() - 1 else m.Size()
  {
    WithoutDistinct(m.order, k);
    WithoutMembers(m.order, k);
  }

  lemma SetValid<K(!new), V>(m: OrderedMap<K, V>, k: K, v: V)
    requires m.Valid()
    ensures m.Set(k, v).Valid()
    ensures m.Set(k, v).Size() == if m.Has(k) then m.Size() else m.Size() + 1
  {
  }

  /** The key count equals the number of entries. */
  lemma SizeIsCardinality<K(!new), V>(m: OrderedMap<K, V>)
    requires m.Valid()
    ensures m.Size() == |m.entries|
    ensures m.entries.Keys == set k | k in m.order
  {
    DistinctCount(m.order);
    assert m.entries.Keys == set k | k in m.order;
    assert |m.entries| == |m.entries.Keys|;
  }

  lemma {:induction false} DistinctCount<K(!new)>(s: seq<K>)
    requires Distinct(s)
    ensures |set k | k in s| == |s|
  {
    if |s| > 0 {
      DistinctCount(s[1..]);
      assert (set k | k in s) == (set k | k in s[1..]) + {s[0]};
    }
  }
}
