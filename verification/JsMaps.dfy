/**
 * ECMAScript `Map` semantics: a finite map that remembers the order in
 * which keys were first inserted. `set` on a present key keeps its
 * position, `set` on a new key appends it, `delete` removes it, and
 * iteration visits the keys in that order.
 */
module JsMaps {
  import opened Wrappers

  predicate Distinct<K(==)>(s: seq<K>) {
    forall i, j :: 0 <= i < j < |s| ==> s[i] != s[j]
  }

  /** The elements of `s` that are not in `ks`, in their order in `s`. */
  function FilterOut<K(!new)>(s: seq<K>, ks: set<K>): (r: seq<K>)
    ensures |r| <= |s|
    ensures forall x :: x in r <==> x in s && x !in ks
    ensures Distinct(s) ==> Distinct(r)
  {
    if s == [] then []
    else if s[0] in ks then FilterOut(s[1..], ks)
    else [s[0]] + FilterOut(s[1..], ks)
  }

  lemma {:induction false} FilterOutSize<K(!new)>(s: seq<K>, ks: set<K>)
    requires Distinct(s)
    ensures |FilterOut(s, ks)| + |set x | x in s && x in ks| == |s|
  {
    if s != [] {
      var t := s[1..];
      FilterOutSize(t, ks);
      var a := set x | x in s && x in ks;
      var b := set x | x in t && x in ks;
      assert s[0] !in t;
      if s[0] in ks {
        assert a == b + {s[0]};
      } else {
        assert a == b;
      }
    }
  }

  lemma {:induction false} FilterOutOne<K(!new)>(s: seq<K>, k: K)
    requires Distinct(s)
    ensures |FilterOut(s, {k})| == if k in s then |s| - 1 else |s|
  {
    if s != [] {
      FilterOutOne(s[1..], k);
      assert s[0] !in s[1..];
    }
  }

  lemma {:induction false} FilterOutTwice<K(!new)>(s: seq<K>, ks: set<K>, more: set<K>)
    ensures FilterOut(FilterOut(s, ks), more) == FilterOut(s, ks + more)
  {
    if s != [] {
      FilterOutTwice(s[1..], ks, more);
    }
  }

  lemma {:induction false} FilterOutNothing<K(!new)>(s: seq<K>, ks: set<K>)
    requires forall x :: x in s ==> x !in ks
    ensures FilterOut(s, ks) == s
  {
    if s != [] {
      FilterOutNothing(s[1..], ks);
    }
  }

  lemma {:induction false} DistinctCard<K>(s: seq<K>)
    requires Distinct(s)
    ensures |set x | x in s| == |s|
  {
    if s != [] {
      DistinctCard(s[1..]);
      assert (set x | x in s) == (set x | x in s[1..]) + {s[0]};
    }
  }

  datatype JsMap<K(!new), V> = JsMap(keys: seq<K>, items: map<K, V>) {

    /** Keys are listed once each, and exactly the keys of `items` are listed. */
    ghost predicate Valid() {
      Distinct(keys) && forall k :: k in items <==> k in keys
    }

    /** `m.size`. */
    function Size(): nat {
      |keys|
    }

    /** `m.has(k)`. */
    predicate Has(k: K) {
      k in items
    }

    /** `m.get(k)`, with `undefined` as `None`. */
    function Get(k: K): (r: Option<V>)
      ensures r.Some? <==> k in items
      ensures r.Some? ==> r.value == items[k]
    {
      if k in items then Some(items[k]) else None
    }

    /** `m.set(k, v)`: a present key keeps its position, a new key goes last. */
    function Set(k: K, v: V): (m: JsMap<K, V>)
      requires Valid()
      ensures m.Valid()
      ensures m.items == items[k := v]
      ensures m.keys == if k in items then keys else keys + [k]
      ensures m.Size() == if k in items then Size() else Size() + 1
    {
      if k in items then JsMap(keys, items[k := v]) else JsMap(keys + [k], items[k := v])
    }

    /** Deletes every key of `ks` (`m.delete(k)` for each). */
    function DeleteAll(ks: set<K>): (m: JsMap<K, V>)
      requires Valid()
      ensures m.Valid()
      ensures m.items == items - ks
      ensures m.keys == FilterOut(keys, ks)
    {
      JsMap(FilterOut(keys, ks), items - ks)
    }

    /** `m.delete(k)`. */
    function Delete(k: K): (m: JsMap<K, V>)
      requires Valid()
      ensures m.Valid()
      ensures m.items == items - {k}
      ensures m.Size() == if k in items then Size() - 1 else Size()
    {
      FilterOutOne(keys, k);
      DeleteAll({k})
    }

    /** `Array.from(m.values())`. */
    function Values(): (vs: seq<V>)
      requires Valid()
      ensures |vs| == |keys|
      ensures forall i :: 0 <= i < |keys| ==> vs[i] == items[keys[i]]
    {
      seq(|keys|, i requires 0 <= i < |keys| && keys[i] in items => items[keys[i]])
    }
  }

  /** Deleting one more key after a batch is deleting the larger batch. */
  lemma DeleteAllThenDelete<K(!new), V>(m: JsMap<K, V>, ks: set<K>, k: K)
    requires m.Valid()
    ensures m.DeleteAll(ks).Delete(k) == m.DeleteAll(ks + {k})
  {
    var a := m.DeleteAll(ks);
    assert a.Delete(k) == JsMap(FilterOut(a.keys, {k}), a.items - {k});
    FilterOutTwice(m.keys, ks, {k});
    assert a.items - {k} == m.items - (ks + {k});
  }

  /** `m.values()` lists exactly the stored values. */
  lemma ValuesListed<K(!new), V>(m: JsMap<K, V>)
    requires m.Valid()
    ensures forall v :: v in m.Values() <==> v in m.items.Values
  {
    var vs := m.Values();
    forall v
      ensures v in vs <==> v in m.items.Values
    {
      if v in vs {
        var i :| 0 <= i < |vs| && vs[i] == v;
        assert m.keys[i] in m.items;
      }
      if v in m.items.Values {
        var k :| k in m.items && m.items[k] == v;
        var i :| 0 <= i < |m.keys| && m.keys[i] == k;
        assert vs[i] == v;
      }
    }
  }

  function Empty<K(!new), V>(): (m: JsMap<K, V>)
    ensures m.Valid() && m.Size() == 0
  {
    JsMap([], map[])
  }

  /** The keys of `m` whose entries satisfy `p`. */
  function KeysWhere<K(!new), V>(m: JsMap<K, V>, p: V -> bool): (ks: set<K>)
    ensures forall k :: k in ks <==> k in m.items && p(m.items[k])
  {
    set k | k in m.items && p(m.items[k])
  }

  /** Removing the keys where `p` holds keeps exactly the others, in order, and shrinks the map by their number. */
  lemma RemoveWhere<K(!new), V>(m: JsMap<K, V>, p: V -> bool)
    requires m.Valid()
    ensures m.DeleteAll(KeysWhere(m, p)).Size() == m.Size() - |KeysWhere(m, p)|
  {
    FilterOutSize(m.keys, KeysWhere(m, p));
    assert (set x | x in m.keys && x in KeysWhere(m, p)) == KeysWhere(m, p);
  }

  /** `s.findIndex(p)`: the position of the first element satisfying `p`, if any. */
  function FindIndex<T>(s: seq<T>, p: T -> bool): (r: Option<nat>)
    ensures r.None? <==> forall i :: 0 <= i < |s| ==> !p(s[i])
    ensures r.Some? ==> r.value < |s| && p(s[r.value]) && forall j :: 0 <= j < r.value ==> !p(s[j])
  {
    if s == [] then None
    else if p(s[0]) then Some(0)
    else
      var rest := FindIndex(s[1..], p);
      if rest.Some? then Some(rest.value + 1) else None
  }

  /** `s.find(p)`: the first element satisfying `p`, if any. */
  function Find<T>(s: seq<T>, p: T -> bool): (r: Option<T>)
    ensures r == if FindIndex(s, p).Some? then Some(s[FindIndex(s, p).value]) else None
  {
    var i := FindIndex(s, p);
    if i.Some? then Some(s[i.value]) else None
  }

  /**
   * `find` over the values of a map keyed by id: `None` exactly when no
   * stored record satisfies `p`; otherwise a stored record satisfying `p`
   * that no earlier-listed record precedes.
   */
  lemma FoundFirst<K(!new), V>(m: JsMap<K, V>, id: V -> K, p: V -> bool)
    requires m.Valid() && forall k :: k in m.items ==> id(m.items[k]) == k
    ensures Find(m.Values(), p).None? <==> forall k :: k in m.items ==> !p(m.items[k])
    ensures Find(m.Values(), p).Some? ==>
              var v := Find(m.Values(), p).value;
              p(v) && id(v) in m.items && m.items[id(v)] == v
              && forall i :: 0 <= i < |m.keys| && m.keys[i] == id(v) ==> forall j :: 0 <= j < i ==> !p(m.items[m.keys[j]])
  {
    var vs := m.Values();
    var i := FindIndex(vs, p);
    if i.Some? {
      assert m.keys[i.value] in m.items;
      assert id(vs[i.value]) == m.keys[i.value];
      forall i' | 0 <= i' < |m.keys| && m.keys[i'] == id(vs[i.value])
        ensures forall j :: 0 <= j < i' ==> !p(m.items[m.keys[j]])
      {
        assert i' == i.value;
      }
    } else {
      forall k | k in m.items
        ensures !p(m.items[k])
      {
        var j :| 0 <= j < |m.keys| && m.keys[j] == k;
        assert vs[j] == m.items[k];
      }
    }
  }
}
