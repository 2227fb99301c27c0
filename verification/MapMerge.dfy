/**
 Merging two maps key by key: a key in both gets the combination of its values, a key in one
 keeps its value. When combining values is a commutative monoid, so is merging maps of them.
 */
module MapMerge {

  function Get<K, V>(m: map<K, V>, k: K, zero: V): V {
    if k in m then m[k] else zero
  }

  function MergeMaps<K, V>(f: (V, V) -> V, zero: V, a: map<K, V>, b: map<K, V>): map<K, V> {
    map k | k in a.Keys + b.Keys :: if k in b then f(Get(a, k, zero), b[k]) else a[k]
  }

  ghost predicate Commutes<V>(f: (V, V) -> V, ok: V -> bool, x: V, y: V) {
    ok(x) && ok(y) ==> ok(f(x, y)) && f(x, y) == f(y, x)
  }

  ghost predicate Associates<V>(f: (V, V) -> V, ok: V -> bool, x: V, y: V, z: V) {
    ok(x) && ok(y) && ok(z) ==> f(f(x, y), z) == f(x, f(y, z))
  }

  ghost predicate Neutral<V>(f: (V, V) -> V, zero: V, ok: V -> bool, x: V) {
    ok(x) ==> f(x, zero) == x
  }

  /** `f` is associative and commutative with identity `zero` on the values that are `ok`. */
  ghost predicate IsMonoid<V(!new)>(f: (V, V) -> V, zero: V, ok: V -> bool) {
    && ok(zero)
    && (forall x, y :: Commutes(f, ok, x, y))
    && (forall x :: Neutral(f, zero, ok, x))
    && (forall x, y, z :: Associates(f, ok, x, y, z))
  }

  ghost predicate AllOk<K, V>(ok: V -> bool, m: map<K, V>) {
    forall k :: k in m ==> ok(m[k])
  }

  lemma {:induction false} SameMap<K, V>(a: map<K, V>, b: map<K, V>, zero: V)
    requires a.Keys == b.Keys
    requires forall k :: k in a ==> Get(a, k, zero) == Get(b, k, zero)
    ensures a == b
  {
  }

  lemma {:induction false} MergeAt<K, V(!new)>(f: (V, V) -> V, zero: V, ok: V -> bool, a: map<K, V>, b: map<K, V>, k: K)
    requires IsMonoid(f, zero, ok) && AllOk(ok, a) && AllOk(ok, b)
    ensures k in MergeMaps(f, zero, a, b) <==> k in a || k in b
    ensures Get(MergeMaps(f, zero, a, b), k, zero) == f(Get(a, k, zero), Get(b, k, zero))
    ensures ok(f(Get(a, k, zero), Get(b, k, zero)))
  {
    assert ok(Get(a, k, zero)) && ok(Get(b, k, zero));
    assert Commutes(f, ok, Get(a, k, zero), Get(b, k, zero));
    assert Neutral(f, zero, ok, Get(a, k, zero));
  }

  lemma {:induction false} MergeOk<K, V(!new)>(f: (V, V) -> V, zero: V, ok: V -> bool, a: map<K, V>, b: map<K, V>)
    requires IsMonoid(f, zero, ok) && AllOk(ok, a) && AllOk(ok, b)
    ensures AllOk(ok, MergeMaps(f, zero, a, b)) && MergeMaps(f, zero, a, b).Keys == a.Keys + b.Keys
  {
    forall k | k in MergeMaps(f, zero, a, b)
      ensures ok(MergeMaps(f, zero, a, b)[k])
    {
      MergeAt(f, zero, ok, a, b, k);
    }
  }

  lemma {:induction false} MergeEmpty<K, V(!new)>(f: (V, V) -> V, zero: V, ok: V -> bool, a: map<K, V>)
    requires IsMonoid(f, zero, ok) && AllOk(ok, a)
    ensures MergeMaps(f, zero, a, map[]) == a && MergeMaps(f, zero, map[], a) == a
  {
    MergeCommutes(f, zero, ok, a, map[]);
    assert MergeMaps(f, zero, a, map[]) == a;
  }

  lemma {:induction false} MergeCommutes<K, V(!new)>(f: (V, V) -> V, zero: V, ok: V -> bool, a: map<K, V>, b: map<K, V>)
    requires IsMonoid(f, zero, ok) && AllOk(ok, a) && AllOk(ok, b)
    ensures MergeMaps(f, zero, a, b) == MergeMaps(f, zero, b, a)
  {
    var left, right := MergeMaps(f, zero, a, b), MergeMaps(f, zero, b, a);
    forall k | k in left
      ensures Get(left, k, zero) == Get(right, k, zero)
    {
      MergeAt(f, zero, ok, a, b, k);
      MergeAt(f, zero, ok, b, a, k);
      assert Commutes(f, ok, Get(a, k, zero), Get(b, k, zero));
    }
    assert left.Keys == right.Keys;
    SameMap(left, right, zero);
  }

  lemma {:induction false} MergeAssociates<K, V(!new)>(f: (V, V) -> V, zero: V, ok: V -> bool, a: map<K, V>, b: map<K, V>, c: map<K, V>)
    requires IsMonoid(f, zero, ok) && AllOk(ok, a) && AllOk(ok, b) && AllOk(ok, c)
    ensures MergeMaps(f, zero, MergeMaps(f, zero, a, b), c) == MergeMaps(f, zero, a, MergeMaps(f, zero, b, c))
  {
    var ab, bc := MergeMaps(f, zero, a, b), MergeMaps(f, zero, b, c);
    MergeOk(f, zero, ok, a, b);
    MergeOk(f, zero, ok, b, c);
    var left, right := MergeMaps(f, zero, ab, c), MergeMaps(f, zero, a, bc);
    forall k | k in left
      ensures Get(left, k, zero) == Get(right, k, zero)
    {
      MergeAt(f, zero, ok, a, b, k);
      MergeAt(f, zero, ok, b, c, k);
      MergeAt(f, zero, ok, ab, c, k);
      MergeAt(f, zero, ok, a, bc, k);
      assert Associates(f, ok, Get(a, k, zero), Get(b, k, zero), Get(c, k, zero));
    }
    assert left.Keys == right.Keys;
    SameMap(left, right, zero);
  }
}
