/**
 * Generic list operations that the store reducers and the dashboard's
 * searches are built from: JavaScript's `filter`, `map` with an id test
 * and `find`, plus the "order-preserving sub-list" relation.
 */
module Seqs {
  import opened Wrappers

  /** `ys` is obtained from `xs` by deleting elements, keeping the order of the rest. */
  ghost predicate IsSubsequence<T>(ys: seq<T>, xs: seq<T>)
    decreases |xs|
  {
    if ys == [] then true
    else if xs == [] then false
    else if ys[0] == xs[0] then IsSubsequence(ys[1..], xs[1..])
    else IsSubsequence(ys, xs[1..])
  }

  /** `xs.filter(p)`: the elements satisfying `p`, in their original order. */
  function Filter<T>(xs: seq<T>, p: T -> bool): (r: seq<T>)
    ensures |r| <= |xs|
    ensures forall i :: 0 <= i < |r| ==> p(r[i]) && r[i] in xs
    ensures forall i :: 0 <= i < |xs| && p(xs[i]) ==> xs[i] in r
  {
    if xs == [] then []
    else if p(xs[0]) then [xs[0]] + Filter(xs[1..], p)
    else Filter(xs[1..], p)
  }

  /** Filtering keeps an order-preserving sub-list. */
  lemma {:induction false} FilterIsSubsequence<T>(xs: seq<T>, p: T -> bool)
    ensures IsSubsequence(Filter(xs, p), xs)
  {
    if xs != [] {
      FilterIsSubsequence(xs[1..], p);
      if !p(xs[0]) {
        SubsequenceSkip(Filter(xs[1..], p), xs[0], xs[1..]);
      }
    }
  }

  /** A sub-list of `xs` is also a sub-list of `[x] + xs`. */
  lemma {:induction false} SubsequenceSkip<T>(ys: seq<T>, x: T, xs: seq<T>)
    requires IsSubsequence(ys, xs)
    ensures IsSubsequence(ys, [x] + xs)
    decreases |xs|, 1
  {
    if ys != [] && ys[0] == x {
      // The head of ys is matched against x; the rest of ys is still a sub-list of xs.
      SubsequenceTail(ys, xs);
      assert ([x] + xs)[1..] == xs;
    } else {
      assert ([x] + xs)[1..] == xs;
    }
  }

  /** Dropping the head of a sub-list keeps a sub-list. */
  lemma {:induction false} SubsequenceTail<T>(ys: seq<T>, xs: seq<T>)
    requires ys != [] && IsSubsequence(ys, xs)
    ensures IsSubsequence(ys[1..], xs)
    decreases |xs|, 0
  {
    if ys[0] == xs[0] {
      if ys[1..] != [] {
        SubsequenceTail(ys[1..], xs[1..]);
        SubsequenceSkip(ys[1..], xs[0], xs[1..]);
        assert [xs[0]] + xs[1..] == xs;
      }
    } else {
      SubsequenceTail(ys, xs[1..]);
      SubsequenceSkip(ys[1..], xs[0], xs[1..]);
      assert [xs[0]] + xs[1..] == xs;
    }
  }

  /** A filter whose predicate holds of every element keeps the whole list. */
  lemma {:induction false} FilterAll<T>(xs: seq<T>, p: T -> bool)
    requires forall i :: 0 <= i < |xs| ==> p(xs[i])
    ensures Filter(xs, p) == xs
  {
    if xs != [] {
      FilterAll(xs[1..], p);
    }
  }

  /** Applying the same filter twice is the same as applying it once. */
  lemma FilterIdempotent<T>(xs: seq<T>, p: T -> bool)
    ensures Filter(Filter(xs, p), p) == Filter(xs, p)
  {
    FilterAll(Filter(xs, p), p);
  }

  /** Filtering commutes with concatenation. */
  lemma {:induction false} FilterAppend<T>(xs: seq<T>, ys: seq<T>, p: T -> bool)
    ensures Filter(xs + ys, p) == Filter(xs, p) + Filter(ys, p)
  {
    if xs == [] {
      assert xs + ys == ys;
    } else {
      assert (xs + ys)[1..] == xs[1..] + ys;
      FilterAppend(xs[1..], ys, p);
    }
  }

  /** An element is in the filtered list exactly when it is in the list and satisfies the predicate. */
  lemma FilterMembership<T>(xs: seq<T>, p: T -> bool, x: T)
    ensures x in Filter(xs, p) <==> x in xs && p(x)
  {
    if x in xs && p(x) {
      var i :| 0 <= i < |xs| && xs[i] == x;
    }
  }

  /** The head of a non-empty filtered list is the first element of the list that satisfies the predicate. */
  lemma {:induction false} FilterHead<T>(xs: seq<T>, p: T -> bool) returns (i: nat)
    requires Filter(xs, p) != []
    ensures i < |xs| && xs[i] == Filter(xs, p)[0] && p(xs[i])
    ensures forall j :: 0 <= j < i ==> !p(xs[j])
  {
    if p(xs[0]) {
      i := 0;
    } else {
      var k := FilterHead(xs[1..], p);
      i := k + 1;
    }
  }

  /** Number of elements satisfying `p`: `xs.filter(p).length`. */
  function Count<T>(xs: seq<T>, p: T -> bool): nat
  {
    |Filter(xs, p)|
  }

  /**
   * `xs.map(x => key(x) === k ? f(x) : x)`: every element whose key is `k`
   * is replaced by its image under `f`, the others are kept, positions included.
   */
  function UpdateWhere<T, K(==)>(xs: seq<T>, key: T -> K, k: K, f: T -> T): (r: seq<T>)
    ensures |r| == |xs|
    ensures forall i :: 0 <= i < |xs| && key(xs[i]) == k ==> r[i] == f(xs[i])
    ensures forall i :: 0 <= i < |xs| && key(xs[i]) != k ==> r[i] == xs[i]
  {
    if xs == [] then []
    else [if key(xs[0]) == k then f(xs[0]) else xs[0]] + UpdateWhere(xs[1..], key, k, f)
  }

  /** Updating a key that no element carries leaves the list unchanged. */
  lemma UpdateAbsent<T, K>(xs: seq<T>, key: T -> K, k: K, f: T -> T)
    requires forall i :: 0 <= i < |xs| ==> key(xs[i]) != k
    ensures UpdateWhere(xs, key, k, f) == xs
  {
  }

  /**
   * When `f` keeps the key and applying it twice is the same as once,
   * the update is idempotent as a whole.
   */
  lemma UpdateIdempotent<T, K>(xs: seq<T>, key: T -> K, k: K, f: T -> T)
    requires forall x :: key(f(x)) == key(x) && f(f(x)) == f(x)
    ensures UpdateWhere(UpdateWhere(xs, key, k, f), key, k, f) == UpdateWhere(xs, key, k, f)
  {
  }

  /** `xs.filter(x => key(x) !== k)`: removes exactly the elements whose key is `k`. */
  function RemoveWhere<T, K(==)>(xs: seq<T>, key: T -> K, k: K): (r: seq<T>)
    ensures forall i :: 0 <= i < |r| ==> key(r[i]) != k && r[i] in xs
    ensures forall i :: 0 <= i < |xs| && key(xs[i]) != k ==> xs[i] in r
  {
    Filter(xs, x => key(x) != k)
  }

  /** Removal keeps the relative order of what remains, and removing an absent key changes nothing. */
  lemma RemoveWhereSpec<T, K>(xs: seq<T>, key: T -> K, k: K)
    ensures IsSubsequence(RemoveWhere(xs, key, k), xs)
    ensures (forall i :: 0 <= i < |xs| ==> key(xs[i]) != k) ==> RemoveWhere(xs, key, k) == xs
  {
    FilterIsSubsequence(xs, x => key(x) != k);
    if forall i :: 0 <= i < |xs| ==> key(xs[i]) != k {
      FilterAll(xs, x => key(x) != k);
    }
  }

  /** `xs.find(x => key(x) === k)`: the first element whose key is `k`, if any. */
  function Find<T, K(==)>(xs: seq<T>, key: T -> K, k: K): (r: Option<T>)
    ensures r.Some? <==> exists i :: 0 <= i < |xs| && key(xs[i]) == k
    ensures r.Some? ==> r.value in xs && key(r.value) == k
    ensures r.Some? ==> exists i :: 0 <= i < |xs| && xs[i] == r.value && forall j :: 0 <= j < i ==> key(xs[j]) != k
  {
    if xs == [] then None
    else if key(xs[0]) == k then Some(xs[0])
    else
      var r := Find(xs[1..], key, k);
      assert r.Some? ==> exists i :: 0 <= i < |xs| && xs[i] == r.value && forall j :: 0 <= j < i ==> key(xs[j]) != k by {
        if r.Some? {
          var i :| 0 <= i < |xs[1..]| && xs[1..][i] == r.value && forall j :: 0 <= j < i ==> key(xs[1..][j]) != k;
          forall j | 0 <= j < i + 1 ensures key(xs[j]) != k {
            if j > 0 {
              assert xs[j] == xs[1..][j - 1];
            }
          }
          assert xs[i + 1] == r.value;
        }
      }
      r
  }

  /** Index of the first occurrence of `x` in `xs`. */
  function FirstIndex<T(==)>(xs: seq<T>, x: T): (i: nat)
    requires x in xs
    ensures i < |xs| && xs[i] == x && x !in xs[..i]
  {
    if xs[0] == x then 0 else 1 + FirstIndex(xs[1..], x)
  }

  /** Two elements past the head keep the order of their first indices in the tail. */
  lemma FirstIndexPastHead<T>(xs: seq<T>, a: T, b: T)
    requires a in xs && b in xs && xs[0] != a && FirstIndex(xs, a) < FirstIndex(xs, b)
    ensures a in xs[1..] && b in xs[1..] && FirstIndex(xs[1..], a) < FirstIndex(xs[1..], b)
  {
    FirstIndexTail(xs, a);
    FirstIndexTail(xs, b);
  }

  /** Past a different head, the first index is one more than in the tail. */
  lemma FirstIndexTail<T>(xs: seq<T>, x: T)
    requires x in xs && xs[0] != x
    ensures x in xs[1..] && FirstIndex(xs, x) == 1 + FirstIndex(xs[1..], x)
  {
    var i :| 0 <= i < |xs| && xs[i] == x;
    assert xs[1..][i - 1] == x;
  }


  /**
   * `[...new Set(xs)]`: each distinct element once, in the order of its
   * first appearance in `xs`.
   */
  function Distinct<T(==)>(xs: seq<T>): (r: seq<T>)
    ensures forall i, j :: 0 <= i < j < |r| ==> r[i] != r[j]
    ensures forall i :: 0 <= i < |r| ==> r[i] in xs
    ensures forall i :: 0 <= i < |xs| ==> xs[i] in r
    ensures |r| <= |xs|
  {
    if xs == [] then []
    else
      var d := Distinct(xs[..|xs| - 1]);
      var x := xs[|xs| - 1];
      assert forall i :: 0 <= i < |xs| - 1 ==> xs[i] == xs[..|xs| - 1][i];
      if x in d then d else d + [x]
  }

  /** The elements of `Distinct(xs)` are listed in the order of their first appearance in `xs`. */
  lemma {:induction false} DistinctFirstAppearance<T>(xs: seq<T>)
    ensures forall i, j :: 0 <= i < j < |Distinct(xs)| ==>
              FirstIndex(xs, Distinct(xs)[i]) < FirstIndex(xs, Distinct(xs)[j])
  {
    if xs != [] {
      var p := xs[..|xs| - 1];
      var x := xs[|xs| - 1];
      assert p + [x] == xs;
      var d := Distinct(p);
      DistinctFirstAppearance(p);
      var r := Distinct(xs);
      assert r == if x in d then d else d + [x];
      forall i, j | 0 <= i < j < |r| ensures FirstIndex(xs, r[i]) < FirstIndex(xs, r[j]) {
        assert r[i] == d[i];
        FirstIndexPrefix(p, x, d[i]);
        var fi := FirstIndex(p, d[i]);
        assert FirstIndex(xs, r[i]) == fi;
        if j < |d| {
          assert r[j] == d[j];
          FirstIndexPrefix(p, x, d[j]);
          assert fi < FirstIndex(p, d[j]);
          assert FirstIndex(xs, r[j]) == FirstIndex(p, d[j]);
        } else {
          assert r[j] == x && x !in d;
          FirstIndexLast(p, x);
          assert FirstIndex(xs, r[j]) == |p|;
        }
      }
    }
  }

  /** An element appended to a list that lacks it first appears at the end. */
  lemma {:induction false} FirstIndexLast<T>(p: seq<T>, x: T)
    requires x !in p
    ensures FirstIndex(p + [x], x) == |p|
  {
    if p != [] {
      assert (p + [x])[1..] == p[1..] + [x];
      FirstIndexLast(p[1..], x);
    }
  }

  /** Appending an element does not move the first occurrence of an element already present. */
  lemma {:induction false} FirstIndexPrefix<T>(p: seq<T>, x: T, y: T)
    requires y in p
    ensures FirstIndex(p + [x], y) == FirstIndex(p, y)
  {
    if p[0] != y {
      assert (p + [x])[1..] == p[1..] + [x];
      FirstIndexPrefix(p[1..], x, y);
    }
  }
}
