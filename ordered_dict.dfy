/** Python's insertion-ordered `dict`, as built by a comprehension
    `{key(x): x for x in xs}` and then updated in place: a key keeps the
    position of its first insertion, and the value is the last one
    written. */
module OrderedDict {

  datatype Dict<K(==), V> = Dict(keys: seq<K>, entries: map<K, V>)

  predicate Distinct<K(==)>(ks: seq<K>) {
    forall i, j :: 0 <= i < j < |ks| ==> ks[i] != ks[j]
  }

  /** The order of `keys` is the iteration order; every key occurs once
      and has an entry. */
  predicate Valid<K(==), V>(d: Dict<K, V>) {
    Distinct(d.keys)
    && (forall k | k in d.entries :: k in d.keys)
    && (forall i | 0 <= i < |d.keys| :: d.keys[i] in d.entries)
  }

  function Empty<K(==), V>(): (d: Dict<K, V>)
    ensures Valid(d)
  {
    Dict([], map[])
  }

  /** `d[k] = v`: an existing key keeps its place, a new key goes last. */
  function Put<K(==), V>(d: Dict<K, V>, k: K, v: V): (r: Dict<K, V>)
    ensures Valid(d) ==> Valid(r)
    ensures r.entries == d.entries[k := v]
    ensures r.keys == if k in d.entries then d.keys else d.keys + [k]
  {
    if k in d.entries then Dict(d.keys, d.entries[k := v])
    else Dict(d.keys + [k], d.entries[k := v])
  }

  /** `list(d.values())`. */
  function Values<K(==), V>(d: Dict<K, V>): (r: seq<V>)
    requires Valid(d)
    ensures |r| == |d.keys|
    ensures forall i :: 0 <= i < |r| ==> r[i] == d.entries[d.keys[i]]
  {
    seq(|d.keys|, i requires 0 <= i < |d.keys| && Valid(d) => d.entries[d.keys[i]])
  }

  /** `{key(x): x for x in xs}`. */
  function FromList<K(==), V>(xs: seq<V>, key: V -> K): (d: Dict<K, V>)
    ensures Valid(d)
  {
    if xs == [] then Empty() else Put(FromList(xs[..|xs| - 1], key), key(xs[|xs| - 1]), xs[|xs| - 1])
  }

  predicate HasKey<K(==), V>(xs: seq<V>, key: V -> K, k: K) {
    exists i :: 0 <= i < |xs| && key(xs[i]) == k
  }

  /** Index of the first element of `xs` with key `k`. */
  function FirstIndex<K(==), V>(xs: seq<V>, key: V -> K, k: K): (i: nat)
    requires HasKey(xs, key, k)
    ensures i < |xs| && key(xs[i]) == k
    ensures forall j :: 0 <= j < i ==> key(xs[j]) != k
  {
    if key(xs[0]) == k then 0
    else
      assert HasKey(xs[1..], key, k) by {
        var i :| 0 <= i < |xs| && key(xs[i]) == k;
        assert xs[1..][i - 1] == xs[i];
      }
      1 + FirstIndex(xs[1..], key, k)
  }

  /** Index of the last element of `xs` with key `k`. */
  function LastIndex<K(==), V>(xs: seq<V>, key: V -> K, k: K): (i: nat)
    requires HasKey(xs, key, k)
    ensures i < |xs| && key(xs[i]) == k
    ensures forall j :: i < j < |xs| ==> key(xs[j]) != k
  {
    if key(xs[|xs| - 1]) == k then |xs| - 1
    else
      assert HasKey(xs[..|xs| - 1], key, k) by {
        var i :| 0 <= i < |xs| && key(xs[i]) == k;
        assert xs[..|xs| - 1][i] == xs[i];
      }
      LastIndex(xs[..|xs| - 1], key, k)
  }

  /** The keys of the comprehension are exactly the keys of the elements,
      and each maps to the last element carrying it. */
  lemma {:induction false} FromListEntries<K, V>(xs: seq<V>, key: V -> K)
    ensures forall k :: k in FromList(xs, key).entries <==> HasKey(xs, key, k)
    ensures forall k :: k in FromList(xs, key).entries ==>
              FromList(xs, key).entries[k] == xs[LastIndex(xs, key, k)]
  {
    forall k ensures k in FromList(xs, key).entries <==> HasKey(xs, key, k) {
      FromListDomain(xs, key, k);
    }
    forall k | k in FromList(xs, key).entries ensures FromList(xs, key).entries[k] == xs[LastIndex(xs, key, k)] {
      FromListValue(xs, key, k);
    }
  }

  /** A key is in the comprehension exactly when some element carries it. */
  lemma {:induction false} FromListDomain<K, V>(xs: seq<V>, key: V -> K, k: K)
    ensures k in FromList(xs, key).entries <==> HasKey(xs, key, k)
  {
    if xs != [] {
      var init := xs[..|xs| - 1];
      FromListDomain(init, key, k);
      if HasKey(init, key, k) {
        var i := LastIndex(init, key, k);
        assert xs[i] == init[i];
      }
      if HasKey(xs, key, k) && k != key(xs[|xs| - 1]) {
        var i := LastIndex(xs, key, k);
        assert init[i] == xs[i];
      }
    }
  }

  /** The entry of a key is the last element carrying it. */
  lemma {:induction false} FromListValue<K, V>(xs: seq<V>, key: V -> K, k: K)
    requires k in FromList(xs, key).entries
    ensures HasKey(xs, key, k)
    ensures FromList(xs, key).entries[k] == xs[LastIndex(xs, key, k)]
  {
    FromListDomain(xs, key, k);
    var init := xs[..|xs| - 1];
    if k != key(xs[|xs| - 1]) {
      FromListDomain(init, key, k);
      FromListValue(init, key, k);
      var j := LastIndex(init, key, k);
      assert xs[j] == init[j];
    }
  }

  /** Every key of `ks` occurs in `xs`, and `ks` lists them in the order
      of their first appearance there. */
  predicate InFirstAppearanceOrder<K(==), V>(ks: seq<K>, xs: seq<V>, key: V -> K) {
    forall p, q :: 0 <= p <= q < |ks| ==>
      HasKey(xs, key, ks[p]) && HasKey(xs, key, ks[q])
      && (p < q ==> FirstIndex(xs, key, ks[p]) < FirstIndex(xs, key, ks[q]))
  }

  /** The keys come in the order of their first appearance in `xs`. */
  lemma {:induction false} FromListOrder<K, V>(xs: seq<V>, key: V -> K)
    ensures InFirstAppearanceOrder(FromList(xs, key).keys, xs, key)
  {
    if xs != [] {
      var init := xs[..|xs| - 1];
      FromListOrder(init, key);
      FromListEntries(init, key);
      var k := key(xs[|xs| - 1]);
      var d0 := FromList(init, key);
      assert FromList(xs, key) == Put(d0, k, xs[|xs| - 1]);
      assert k in d0.entries <==> HasKey(init, key, k);
      OrderStep(init, xs, key, FromList(init, key).keys, FromList(xs, key).keys);
    }
  }

  lemma {:induction false} OrderStep<K, V>(init: seq<V>, xs: seq<V>, key: V -> K, ks0: seq<K>, ks: seq<K>)
    requires |xs| == |init| + 1 && init == xs[..|init|]
    requires InFirstAppearanceOrder(ks0, init, key)
    requires ks == ks0 || (ks == ks0 + [key(xs[|init|])] && !HasKey(init, key, key(xs[|init|])))
    ensures InFirstAppearanceOrder(ks, xs, key)
  {
    forall p, q | 0 <= p <= q < |ks|
      ensures HasKey(xs, key, ks[p]) && HasKey(xs, key, ks[q])
              && (p < q ==> FirstIndex(xs, key, ks[p]) < FirstIndex(xs, key, ks[q]))
    {
      if q < |ks0| {
        assert ks[p] == ks0[p] && ks[q] == ks0[q];
        FirstIndexPrefix(init, xs, key, ks0[p]);
        FirstIndexPrefix(init, xs, key, ks0[q]);
      } else {
        NewKeyComesLast(init, xs, key, key(xs[|init|]));
        if p < q {
          assert ks[p] == ks0[p];
          assert HasKey(init, key, ks0[p]) by { assert 0 <= p <= p < |ks0|; }
          FirstIndexPrefix(init, xs, key, ks0[p]);
        }
      }
    }
  }

  /** A key that `init` lacks first appears at the element appended. */
  lemma {:induction false} NewKeyComesLast<K, V>(init: seq<V>, xs: seq<V>, key: V -> K, k: K)
    requires |xs| == |init| + 1 && init == xs[..|init|] && key(xs[|init|]) == k
    requires !HasKey(init, key, k)
    ensures HasKey(xs, key, k) && FirstIndex(xs, key, k) == |init|
  {
  }

  /** Extending a sequence at the back does not move the first index of a key
      it already has. */
  lemma {:induction false} FirstIndexPrefix<K, V>(init: seq<V>, xs: seq<V>, key: V -> K, k: K)
    requires |init| <= |xs| && init == xs[..|init|] && HasKey(init, key, k)
    ensures HasKey(xs, key, k) && FirstIndex(xs, key, k) == FirstIndex(init, key, k)
  {
    var i := FirstIndex(init, key, k);
    assert xs[i] == init[i];
  }
}
