/** The source keeps its registries in dictionaries and walks them in insertion
    order (the order decides the order of hits, of sends and of the JoinAck
    player list). `Dict` pairs a map with the order in which its keys were first
    inserted, as the host language's dict does: re-assigning a key keeps its
    place, deleting it removes it. */
module Dicts {
  import opened Wrappers

  /** Keys occurring at most once. */
  ghost predicate Distinct<K>(s: seq<K>) {
    forall i, j | 0 <= i < j < |s| :: s[i] != s[j]
  }

  datatype Dict<K(==), V> = Dict(order: seq<K>, entries: map<K, V>) {

    ghost predicate Valid() {
      && Distinct(order)
      && (forall k | k in entries :: k in order)
      && (forall k | k in order :: k in entries)
    }

    function Get(k: K): (r: Option<V>)
      ensures r.Some? <==> k in entries
      ensures r.Some? ==> r.value == entries[k]
    {
      if k in entries then Some(entries[k]) else None
    }

    /** `d[k] = v`. */
    function Put(k: K, v: V): (d: Dict<K, V>)
      requires Valid()
      ensures d.Valid()
      ensures d.entries == entries[k := v]
      ensures k in entries ==> d.order == order
      ensures k !in entries ==> d.order == order + [k]
    {
      if k in entries then Dict(order, entries[k := v]) else Dict(order + [k], entries[k := v])
    }

    /** `del d[k]` guarded by `if k in d`. */
    function Remove(k: K): (d: Dict<K, V>)
      requires Valid()
      ensures d.Valid()
      ensures d.entries == entries - {k}
      ensures d.order == Without(order, k)
    {
      WithoutDistinct(order, k);
      Dict(Without(order, k), entries - {k})
    }

    /** `list(d.values())`. */
    function Values(): (vs: seq<V>)
      requires Valid()
      ensures |vs| == |order|
      ensures forall i | 0 <= i < |order| :: vs[i] == entries[order[i]]
    {
      seq(|order|, i requires 0 <= i < |order| => entries[order[i]])
    }

    /** `len(d)`. */
    function Size(): (n: nat)
      requires Valid()
      ensures n == |entries|
    {
      DistinctSize(order, entries.Keys);
      |order|
    }

    /** Every stored value occurs in `list(d.values())`. */
    lemma ValuesHave(k: K)
      requires Valid() && k in entries
      ensures entries[k] in Values()
    {
      var i :| 0 <= i < |order| && order[i] == k;
      assert Values()[i] == entries[k];
    }
  }

  function Empty<K, V>(): (d: Dict<K, V>)
    ensures d.Valid() && d.entries == map[] && d.order == []
  {
    Dict([], map[])
  }

  /** `s` with every occurrence of `k` taken out, the rest in order. */
  function Without<K(==)>(s: seq<K>, k: K): (r: seq<K>)
    ensures forall j | j in r :: j in s && j != k
    ensures forall j | j in s && j != k :: j in r
    ensures |r| <= |s|
  {
    if s == [] then []
    else if s[0] == k then Without(s[1..], k)
    else [s[0]] + Without(s[1..], k)
  }

  lemma {:induction false} WithoutDistinct<K>(s: seq<K>, k: K)
    requires Distinct(s)
    ensures Distinct(Without(s, k))
  {
    if s != [] {
      WithoutDistinct(s[1..], k);
      if s[0] != k {
        var r := Without(s[1..], k);
        assert s[0] !in r by {
          assert s[0] !in s[1..];
        }
        assert Without(s, k) == [s[0]] + r;
      }
    }
  }

  /** A sequence without repeats is as long as the set of its elements. */
  lemma {:induction false} DistinctSize<K>(s: seq<K>, ks: set<K>)
    requires Distinct(s)
    requires forall k | k in ks :: k in s
    requires forall k | k in s :: k in ks
    ensures |ks| == |s|
  {
    if s != [] {
      var last := s[|s| - 1];
      var init := s[..|s| - 1];
      assert last !in init by {
        forall i | 0 <= i < |init|
          ensures init[i] != last
        {
          assert init[i] == s[i];
        }
      }
      forall k | k in ks - {last}
        ensures k in init
      {
        var i :| 0 <= i < |s| && s[i] == k;
        assert i < |s| - 1;
        assert init[i] == k;
      }
      DistinctSize(init, ks - {last});
    }
  }

  /** Removing a key that is absent leaves the order as it was. */
  lemma {:induction false} WithoutAbsent<K>(s: seq<K>, k: K)
    requires k !in s
    ensures Without(s, k) == s
  {
    if s != [] {
      WithoutAbsent(s[1..], k);
      assert s == [s[0]] + s[1..];
    }
  }

  /** The dictionary after `del d[k]` (guarded by `if k in d`) for each key of
      `ks`, in that order. */
  function RemoveAll<K, V>(d: Dict<K, V>, ks: seq<K>): (r: Dict<K, V>)
    requires d.Valid()
    ensures r.Valid()
    decreases |ks|
  {
    if ks == [] then d else RemoveAll(d, ks[..|ks| - 1]).Remove(ks[|ks| - 1])
  }

  /** Removing a list of keys leaves exactly the other entries. */
  lemma {:induction false} RemoveAllEntries<K, V>(d: Dict<K, V>, ks: seq<K>)
    requires d.Valid()
    ensures RemoveAll(d, ks).entries == d.entries - SetOf(ks)
    decreases |ks|
  {
    if ks != [] {
      var init := ks[..|ks| - 1];
      RemoveAllEntries(d, init);
      SetOfSnoc(init, ks[|ks| - 1]);
      assert ks == init + [ks[|ks| - 1]];
    }
  }

  function SetOf<K>(ks: seq<K>): set<K> {
    set k | k in ks
  }

  lemma SetOfSnoc<K>(ks: seq<K>, k: K)
    ensures SetOf(ks + [k]) == SetOf(ks) + {k}
  {
  }

  /** Storing under a new key appends its value to `list(d.values())`. */
  lemma PutNewValues<K, V>(d: Dict<K, V>, k: K, v: V)
    requires d.Valid() && k !in d.entries
    ensures d.Put(k, v).Values() == d.Values() + [v]
  {
    var e := d.Put(k, v);
    assert e.order == d.order + [k];
    assert forall i | 0 <= i < |d.order| :: d.order[i] != k;
  }

  /** `n` consecutive ids counting up from `from`: the keys a counter hands out
      over `n` insertions. */
  function IdRange(from: int, n: nat): (r: seq<int>)
    ensures |r| == n && forall i | 0 <= i < n :: r[i] == from + i
  {
    if n == 0 then [] else IdRange(from, n - 1) + [from + n - 1]
  }
}
