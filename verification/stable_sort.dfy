/**
 * Go's sort.SliceStable(x, less), used by core/images/handlers.go (LimitManifests) and
 * client/snapshotter_opts_unix.go (remappedSnapshot.ID through slices.SortStableFunc).
 *
 * Go sorts blocks of 20 elements with an insertion sort in which each element moves left
 * while it is `less` than its predecessor; `Insert` is that step. For slices of more than
 * 20 elements Go then merges the blocks, which yields the same order whenever `less` is a
 * strict weak order.
 */
module StableSort {

  /** Insert x after the sorted prefix s: x moves left past every trailing element it is less than. */
  function Insert<T>(s: seq<T>, x: T, less: (T, T) -> bool): (r: seq<T>)
    ensures |r| == |s| + 1 && r[InsertPos(s, x, less)] == x
    decreases |s|
  {
    if s == [] then [x]
    else if less(x, s[|s| - 1]) then Insert(s[..|s| - 1], x, less) + [s[|s| - 1]]
    else s + [x]
  }

  /** The other elements keep their order around x: Insert splices x into s at InsertPos. */
  lemma {:induction false} InsertShape<T>(s: seq<T>, x: T, less: (T, T) -> bool)
    ensures Insert(s, x, less) == s[..InsertPos(s, x, less)] + [x] + s[InsertPos(s, x, less)..]
    decreases |s|
  {
    if s != [] && less(x, s[|s| - 1]) {
      var init := s[..|s| - 1];
      InsertShape(init, x, less);
      var j := InsertPos(s, x, less);
      assert init[..j] == s[..j];
      assert init[j..] + [s[|s| - 1]] == s[j..];
    }
  }

  /**
   * Where Insert puts x: after the last element x is not less than, so every element
   * after x is one x is less than.
   */
  function InsertPos<T>(s: seq<T>, x: T, less: (T, T) -> bool): (j: nat)
    ensures j <= |s|
    decreases |s|
  {
    if s == [] || !less(x, s[|s| - 1]) then |s| else InsertPos(s[..|s| - 1], x, less)
  }

  /** Insert moves x left only past elements it is less than, and stops at the first it is not. */
  lemma {:induction false} InsertPosPassed<T>(s: seq<T>, x: T, less: (T, T) -> bool)
    ensures forall k :: InsertPos(s, x, less) <= k < |s| ==> less(x, s[k])
    ensures InsertPos(s, x, less) > 0 ==> !less(x, s[InsertPos(s, x, less) - 1])
    decreases |s|
  {
    if s != [] && less(x, s[|s| - 1]) {
      var init := s[..|s| - 1];
      InsertPosPassed(init, x, less);
      assert forall k :: 0 <= k < |init| ==> init[k] == s[k];
    }
  }

  /** The insertion sort: each element in turn is inserted into the sorted prefix. */
  function Sort<T>(s: seq<T>, less: (T, T) -> bool): (r: seq<T>)
    ensures |r| == |s|
    decreases |s|
  {
    if s == [] then [] else Insert(Sort(s[..|s| - 1], less), s[|s| - 1], less)
  }

  lemma InsertPermutation<T>(s: seq<T>, x: T, less: (T, T) -> bool)
    ensures multiset(Insert(s, x, less)) == multiset(s) + multiset{x}
  {
    InsertShape(s, x, less);
    var j := InsertPos(s, x, less);
    assert s == s[..j] + s[j..];
  }

  /** Sorting only reorders: the result is a permutation of the input. */
  lemma {:induction false} SortPermutation<T>(s: seq<T>, less: (T, T) -> bool)
    ensures multiset(Sort(s, less)) == multiset(s)
    decreases |s|
  {
    if s != [] {
      SortPermutation(s[..|s| - 1], less);
      InsertPermutation(Sort(s[..|s| - 1], less), s[|s| - 1], less);
      assert s == s[..|s| - 1] + [s[|s| - 1]];
    }
  }

  /** One more step left: x is less than the element before position j, so it moves past it. */
  lemma InsertShift<T>(sorted: seq<T>, x: T, j: nat, less: (T, T) -> bool)
    requires 0 < j <= |sorted| && less(x, sorted[j - 1])
    ensures InsertPos(sorted[..j], x, less) == InsertPos(sorted[..j - 1], x, less)
  {
    assert sorted[..j][..j - 1] == sorted[..j - 1];
  }

  /** Where the scan stops, x lands right after the prefix. */
  lemma InsertStop<T>(sorted: seq<T>, x: T, j: nat, less: (T, T) -> bool)
    requires j <= |sorted| && (j == 0 || !less(x, sorted[j - 1]))
    ensures InsertPos(sorted[..j], x, less) == j
  {
  }

  /** A sequence that agrees with sorted before j, holds x at j and agrees with sorted shifted by one after j. */
  lemma Reassemble<T>(t: seq<T>, sorted: seq<T>, x: T, j: nat)
    requires |t| == |sorted| + 1 && j <= |sorted| && t[j] == x
    requires forall k :: 0 <= k < j ==> t[k] == sorted[k]
    requires forall k :: j < k < |t| ==> t[k] == sorted[k - 1]
    ensures t == sorted[..j] + [x] + sorted[j..]
  {
  }

  /** The inner loop of Go's insertion sort: a[i] moves left past every element it is less than. */
  method InsertInPlace<T>(a: array<T>, i: nat, less: (T, T) -> bool)
    requires i < a.Length
    modifies a
    ensures a[..i + 1] == Insert(old(a[..i]), old(a[i]), less)
    ensures forall k :: i < k < a.Length ==> a[k] == old(a[k])
  {
    ghost var sorted := a[..i];
    ghost var x := a[i];
    var j := i;
    assert sorted[..j] == sorted;
    while j > 0 && less(a[j], a[j - 1])
      invariant 0 <= j <= i
      invariant a[j] == x
      invariant forall k :: 0 <= k < j ==> a[k] == sorted[k]
      invariant forall k :: j < k <= i ==> a[k] == sorted[k - 1]
      invariant forall k :: i < k < a.Length ==> a[k] == old(a[k])
      invariant InsertPos(sorted, x, less) == InsertPos(sorted[..j], x, less)
    {
      InsertShift(sorted, x, j, less);
      a[j], a[j - 1] := a[j - 1], a[j];
      j := j - 1;
    }
    InsertStop(sorted, x, j, less);
    InsertShape(sorted, x, less);
    Reassemble(a[..i + 1], sorted, x, j);
  }

  /**
   * sort.SliceStable in place: Go's insertion sort, swapping each element left while it is
   * less than its predecessor. The array ends up as Sort of its old contents.
   */
  method SliceStable<T>(a: array<T>, less: (T, T) -> bool)
    modifies a
    ensures a[..] == Sort(old(a[..]), less)
  {
    ghost var s := a[..];
    var i := 0;
    while i < a.Length
      invariant i <= a.Length
      invariant a[..i] == Sort(s[..i], less)
      invariant forall k :: i <= k < a.Length ==> a[k] == s[k]
    {
      assert s[..i + 1][..i] == s[..i];
      InsertInPlace(a, i, less);
      i := i + 1;
    }
    assert s[..a.Length] == s;
  }

  // ---------------------------------------------------------------- ordering by a key

  predicate SortedByKey<T>(s: seq<T>, key: T -> int)
  {
    forall i, j :: 0 <= i < j < |s| ==> key(s[i]) <= key(s[j])
  }

  /** The elements of s whose key is k, in order. */
  function WithKey<T>(s: seq<T>, key: T -> int, k: int): seq<T>
    decreases |s|
  {
    if s == [] then []
    else WithKey(s[..|s| - 1], key, k) + (if key(s[|s| - 1]) == k then [s[|s| - 1]] else [])
  }

  /** Every element of Insert(s, x, less) is x or an element of s. */
  lemma InsertElements<T>(s: seq<T>, x: T, less: (T, T) -> bool)
    ensures forall i :: 0 <= i < |Insert(s, x, less)| ==> Insert(s, x, less)[i] == x || Insert(s, x, less)[i] in s
  {
    var r := Insert(s, x, less);
    InsertPermutation(s, x, less);
    forall i | 0 <= i < |r| ensures r[i] == x || r[i] in s {
      assert r[i] in multiset(r);
    }
  }

  lemma {:induction false} InsertSorted<T>(s: seq<T>, x: T, less: (T, T) -> bool, key: T -> int)
    requires forall a, b :: less(a, b) == (key(a) < key(b))
    requires SortedByKey(s, key)
    ensures SortedByKey(Insert(s, x, less), key)
    decreases |s|
  {
    if s != [] {
      var init, last := s[..|s| - 1], s[|s| - 1];
      if less(x, last) {
        InsertSorted(init, x, less, key);
        InsertElements(init, x, less);
        var r := Insert(init, x, less);
        forall i | 0 <= i < |r| ensures key(r[i]) <= key(last) {
          if r[i] != x {
            var j :| 0 <= j < |init| && init[j] == r[i];
            assert s[j] == init[j];
          }
        }
      } else {
        forall i | 0 <= i < |s| ensures key(s[i]) <= key(x) {
          assert key(s[i]) <= key(last);
        }
      }
    }
  }

  lemma {:induction false} InsertWithKey<T>(s: seq<T>, x: T, less: (T, T) -> bool, key: T -> int, k: int)
    requires forall a, b :: less(a, b) == (key(a) < key(b))
    ensures WithKey(Insert(s, x, less), key, k) == WithKey(s, key, k) + (if key(x) == k then [x] else [])
    decreases |s|
  {
    if s != [] {
      var init, last := s[..|s| - 1], s[|s| - 1];
      var lastPart := if key(last) == k then [last] else [];
      assert WithKey(s, key, k) == WithKey(init, key, k) + lastPart;
      if less(x, last) {
        InsertWithKey(init, x, less, key, k);
        var r := Insert(init, x, less);
        assert Insert(s, x, less) == r + [last];
        assert (r + [last])[..|r|] == r;
        assert WithKey(r + [last], key, k) == WithKey(r, key, k) + lastPart;
      } else {
        assert Insert(s, x, less) == s + [x];
        assert (s + [x])[..|s|] == s;
      }
    }
  }

  /**
   * Sorting by a key (less(a, b) == key(a) < key(b)) orders by key and is stable: the
   * elements sharing a key keep their relative order.
   */
  lemma {:induction false} SortByKey<T>(s: seq<T>, less: (T, T) -> bool, key: T -> int)
    requires forall a, b :: less(a, b) == (key(a) < key(b))
    ensures SortedByKey(Sort(s, less), key)
    ensures forall k :: WithKey(Sort(s, less), key, k) == WithKey(s, key, k)
    decreases |s|
  {
    if s != [] {
      var init, last := s[..|s| - 1], s[|s| - 1];
      SortByKey(init, less, key);
      InsertSorted(Sort(init, less), last, less, key);
      forall k ensures WithKey(Sort(s, less), key, k) == WithKey(s, key, k) {
        InsertWithKey(Sort(init, less), last, less, key, k);
      }
    }
  }

  // ---------------------------------------------------------------- moving a class of elements to the end

  /** The elements of s satisfying p, in order. */
  function Keep<T>(s: seq<T>, p: T -> bool): seq<T>
    decreases |s|
  {
    if s == [] then [] else Keep(s[..|s| - 1], p) + (if p(s[|s| - 1]) then [s[|s| - 1]] else [])
  }

  /** Once an element satisfies p, every later one does. */
  predicate AtEnd<T>(s: seq<T>, p: T -> bool)
  {
    forall i, j :: 0 <= i < j < |s| && p(s[i]) ==> p(s[j])
  }

  /**
   * The comparison LimitManifests uses: an element with p (no platform) is never less than
   * anything, and an element without p is less than every element with p.
   */
  ghost predicate PushesToEnd<T(!new)>(less: (T, T) -> bool, p: T -> bool)
  {
    (forall a, b :: p(a) ==> !less(a, b)) && (forall a, b :: !p(a) && p(b) ==> less(a, b))
  }

  lemma {:induction false} InsertAtEnd<T(!new)>(s: seq<T>, x: T, less: (T, T) -> bool, p: T -> bool)
    requires PushesToEnd(less, p) && AtEnd(s, p)
    ensures AtEnd(Insert(s, x, less), p)
    decreases |s|
  {
    if s != [] {
      var init, last := s[..|s| - 1], s[|s| - 1];
      if less(x, last) {
        assert !p(x);
        InsertAtEnd(init, x, less, p);
        var r := Insert(init, x, less);
        if !p(last) {
          InsertElements(init, x, less);
          forall i | 0 <= i < |r| ensures !p(r[i]) {
            if r[i] != x {
              var j :| 0 <= j < |init| && init[j] == r[i];
              assert s[j] == init[j];
            }
          }
        }
      } else if !p(x) {
        assert !p(last);
      }
    }
  }

  lemma {:induction false} InsertKeep<T(!new)>(s: seq<T>, x: T, less: (T, T) -> bool, p: T -> bool)
    requires PushesToEnd(less, p)
    ensures Keep(Insert(s, x, less), p) == Keep(s, p) + (if p(x) then [x] else [])
    decreases |s|
  {
    if s != [] {
      var init, last := s[..|s| - 1], s[|s| - 1];
      if less(x, last) {
        assert !p(x);
        InsertKeep(init, x, less, p);
        var r := Insert(init, x, less);
        assert (r + [last])[..|r|] == r;
      } else {
        assert (s + [x])[..|s|] == s;
      }
    }
  }

  /**
   * Sorting with such a comparison puts every p element after every other element and keeps
   * the p elements in their original order.
   */
  lemma {:induction false} SortToEnd<T(!new)>(s: seq<T>, less: (T, T) -> bool, p: T -> bool)
    requires PushesToEnd(less, p)
    ensures AtEnd(Sort(s, less), p)
    ensures Keep(Sort(s, less), p) == Keep(s, p)
    decreases |s|
  {
    if s != [] {
      SortToEnd(s[..|s| - 1], less, p);
      InsertAtEnd(Sort(s[..|s| - 1], less), s[|s| - 1], less, p);
      InsertKeep(Sort(s[..|s| - 1], less), s[|s| - 1], less, p);
    }
  }
}
