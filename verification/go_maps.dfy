/**
 * Go maps as the client options use them. A nil map reads as empty but is a distinct value
 * (options test `m == nil` before writing), so a map that may be nil is an `Option<map>`.
 */
module GoMaps {
  import opened Errdefs

  /** What reading a possibly-nil map sees. */
  function Contents<K, V>(m: Option<map<K, V>>): map<K, V>
  {
    if m.Some? then m.value else map[]
  }

  /** The entries of `m` whose keys are in `ks`. */
  function Restrict<K, V>(m: map<K, V>, ks: set<K>): (r: map<K, V>)
    ensures r.Keys == m.Keys * ks
    ensures forall k :: k in r ==> r[k] == m[k]
  {
    map k | k in m.Keys * ks :: m[k]
  }

  /** Writing one more key of `src` extends the restriction by that key. */
  lemma RestrictStep<K, V>(dst: map<K, V>, src: map<K, V>, done: set<K>, k: K)
    requires k in src
    ensures dst + Restrict(src, done + {k}) == (dst + Restrict(src, done))[k := src[k]]
  {
    var lhs := dst + Restrict(src, done + {k});
    var rhs := (dst + Restrict(src, done))[k := src[k]];
    assert lhs.Keys == rhs.Keys;
    forall x | x in lhs
      ensures lhs[x] == rhs[x]
    {
    }
  }

  /**
   * `for k, v := range src { dst[k] = v }`: every entry of `src` is written into `dst`, in
   * whatever order the map is ranged over. The result is the same for every order.
   */
  method PutAll<K, V>(dst: map<K, V>, src: map<K, V>) returns (r: map<K, V>)
    ensures r == dst + src
    ensures r.Keys == dst.Keys + src.Keys
    ensures forall k :: k in src ==> r[k] == src[k]
    ensures forall k :: k in dst && k !in src ==> r[k] == dst[k]
  {
    r := dst;
    var todo := src.Keys;
    while todo != {}
      invariant todo <= src.Keys
      invariant r == dst + Restrict(src, src.Keys - todo)
      decreases todo
    {
      var k :| k in todo;
      RestrictStep(dst, src, src.Keys - todo, k);
      assert src.Keys - (todo - {k}) == (src.Keys - todo) + {k};
      r := r[k := src[k]];
      todo := todo - {k};
    }
    assert Restrict(src, src.Keys) == src;
  }
}
