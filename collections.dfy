/**
 * Generic sequence folds used to model SQL aggregates and `ORDER BY`:
 * sums of a real-valued column, and a stable insertion sort by an integer key.
 * Folds recurse from the back, so that a loop over a prefix `s[..i]` extends
 * its running value by the element `s[i]`.
 */
module Collections {

  /** Sum of `f` over the elements of `s` (SQL `SUM`, JavaScript `reduce`). */
  function Sum<T>(s: seq<T>, f: T -> real): real
  {
    if |s| == 0 then 0.0 else Sum(s[..|s| - 1], f) + f(s[|s| - 1])
  }

  /** Count of the elements of `s` satisfying `p`. */
  function Count<T>(s: seq<T>, p: T -> bool): nat
  {
    if |s| == 0 then 0 else Count(s[..|s| - 1], p) + (if p(s[|s| - 1]) then 1 else 0)
  }

  lemma {:induction false} SumAppend<T>(a: seq<T>, b: seq<T>, f: T -> real)
    ensures Sum(a + b, f) == Sum(a, f) + Sum(b, f)
  {
    if |b| == 0 {
      assert a + b == a;
    } else {
      assert (a + b)[..|a + b| - 1] == a + b[..|b| - 1];
      SumAppend(a, b[..|b| - 1], f);
    }
  }

  lemma {:induction false} CountAppend<T>(a: seq<T>, b: seq<T>, p: T -> bool)
    ensures Count(a + b, p) == Count(a, p) + Count(b, p)
  {
    if |b| == 0 {
      assert a + b == a;
    } else {
      assert (a + b)[..|a + b| - 1] == a + b[..|b| - 1];
      CountAppend(a, b[..|b| - 1], p);
    }
  }

  /** A prefix one longer is the prefix with the next element appended. */
  lemma TakeSnoc<T>(s: seq<T>, i: nat)
    requires i < |s|
    ensures s[..i + 1] == s[..i] + [s[i]]
  {
  }

  lemma Split<T>(b: seq<T>, k: nat)
    requires k < |b|
    ensures b == b[..k] + [b[k]] + b[k + 1..]
  {
  }

  lemma MultisetInsert<T>(l: seq<T>, x: T, r: seq<T>)
    ensures multiset(l + [x] + r) == multiset(l + r) + multiset{x}
  {
  }

  lemma MultisetCancel<T>(p: multiset<T>, q: multiset<T>, x: T)
    requires p + multiset{x} == q + multiset{x}
    ensures p == q
  {
    forall y ensures p[y] == q[y] {
      assert (p + multiset{x})[y] == (q + multiset{x})[y];
    }
  }

  /** The last element of `a` sits somewhere in a permutation `b`; removing both leaves permutations. */
  lemma PermutationSplit<T>(a: seq<T>, b: seq<T>) returns (k: nat)
    requires multiset(a) == multiset(b) && |a| > 0
    ensures k < |b| && b[k] == a[|a| - 1]
    ensures multiset(a[..|a| - 1]) == multiset(b[..k] + b[k + 1..])
  {
    var x := a[|a| - 1];
    MultisetInsert(a[..|a| - 1], x, []);
    assert a[..|a| - 1] + [x] + [] == a;
    assert x in multiset(b);
    k :| 0 <= k < |b| && b[k] == x;
    Split(b, k);
    MultisetInsert(b[..k], x, b[k + 1..]);
    MultisetCancel(multiset(a[..|a| - 1]), multiset(b[..k] + b[k + 1..]), x);
  }

  lemma SumSingle<T>(x: T, f: T -> real)
    ensures Sum([x], f) == f(x)
  {
    assert [x][..0] == [];
  }

  lemma CountSingle<T>(x: T, p: T -> bool)
    ensures Count([x], p) == if p(x) then 1 else 0
  {
    assert [x][..0] == [];
  }

  lemma SumInsert<T>(l: seq<T>, x: T, r: seq<T>, f: T -> real)
    ensures Sum(l + [x] + r, f) == Sum(l + r, f) + f(x)
  {
    SumAppend(l + [x], r, f);
    SumAppend(l, [x], f);
    SumAppend(l, r, f);
    SumSingle(x, f);
  }

  lemma CountInsert<T>(l: seq<T>, x: T, r: seq<T>, p: T -> bool)
    ensures Count(l + [x] + r, p) == Count(l + r, p) + (if p(x) then 1 else 0)
  {
    CountAppend(l + [x], r, p);
    CountAppend(l, [x], p);
    CountAppend(l, r, p);
    CountSingle(x, p);
  }


  /** A sum depends only on the multiset of summed elements, not on their order. */
  lemma {:induction false} SumPermutation<T>(a: seq<T>, b: seq<T>, f: T -> real)
    requires multiset(a) == multiset(b)
    ensures Sum(a, f) == Sum(b, f)
  {
    if |a| == 0 {
      assert |multiset(b)| == 0;
      assert |b| == 0;
    } else {
      var k := PermutationSplit(a, b);
      SumPermutation(a[..|a| - 1], b[..k] + b[k + 1..], f);
      Split(b, k);
      SumInsert(b[..k], b[k], b[k + 1..], f);
    }
  }

  /** Likewise a count depends only on the multiset of counted elements. */
  lemma {:induction false} CountPermutation<T>(a: seq<T>, b: seq<T>, p: T -> bool)
    requires multiset(a) == multiset(b)
    ensures Count(a, p) == Count(b, p)
  {
    if |a| == 0 {
      assert |multiset(b)| == 0;
      assert |b| == 0;
    } else {
      var k := PermutationSplit(a, b);
      CountPermutation(a[..|a| - 1], b[..k] + b[k + 1..], p);
      Split(b, k);
      CountInsert(b[..k], b[k], b[k + 1..], p);
    }
  }

  /** The elements of `s` satisfying `p`, in order (JavaScript `filter`, or a `push` under an `if`). */
  function Filter<T(!new)>(s: seq<T>, p: T -> bool): (r: seq<T>)
    ensures forall x :: x in r <==> x in s && p(x)
    ensures |r| == Count(s, p)
  {
    if |s| == 0 then []
    else
      var init := Filter(s[..|s| - 1], p);
      assert s == s[..|s| - 1] + [s[|s| - 1]];
      if p(s[|s| - 1]) then init + [s[|s| - 1]] else init
  }

  /** Appending one element extends a sum by its value. */
  lemma SumPush<T>(s: seq<T>, x: T, f: T -> real)
    ensures Sum(s + [x], f) == Sum(s, f) + f(x)
  {
    assert (s + [x])[..|s|] == s;
  }

  /** A filter keeps every copy of a selected element and no copy of the others. */
  lemma {:induction false} FilterMultiset<T(!new)>(s: seq<T>, p: T -> bool)
    ensures forall x :: multiset(Filter(s, p))[x] == if p(x) then multiset(s)[x] else 0
  {
    if |s| > 0 {
      var init := s[..|s| - 1];
      assert s == init + [s[|s| - 1]];
      FilterMultiset(init, p);
    }
  }

  /** Filtering two permutations of each other gives permutations of each other. */
  lemma FilterPermutation<T(!new)>(a: seq<T>, b: seq<T>, p: T -> bool)
    requires multiset(a) == multiset(b)
    ensures multiset(Filter(a, p)) == multiset(Filter(b, p))
  {
    FilterMultiset(a, p);
    FilterMultiset(b, p);
    assert forall x :: multiset(Filter(a, p))[x] == multiset(Filter(b, p))[x];
  }

  /** `s` is ordered by non-decreasing `key`. */
  ghost predicate SortedBy<T>(s: seq<T>, key: T -> int)
  {
    forall i, j :: 0 <= i < j < |s| ==> key(s[i]) <= key(s[j])
  }

  /** What is inserted below `last` holds only keys at most `key(last)`. */
  lemma InsertedBelow<T>(x: T, init: seq<T>, last: T, r: seq<T>, key: T -> int)
    requires forall i :: 0 <= i < |init| ==> key(init[i]) <= key(last)
    requires key(x) <= key(last)
    requires multiset(r) == multiset(init) + multiset{x}
    ensures forall i :: 0 <= i < |r| ==> key(r[i]) <= key(last)
  {
    forall i | 0 <= i < |r| ensures key(r[i]) <= key(last) {
      assert r[i] in multiset(r);
      if r[i] != x {
        assert r[i] in multiset(init);
        assert r[i] in init;
      }
    }
  }

  lemma SortedSnoc<T>(r: seq<T>, last: T, key: T -> int)
    requires SortedBy(r, key)
    requires forall i :: 0 <= i < |r| ==> key(r[i]) <= key(last)
    ensures SortedBy(r + [last], key)
  {
  }

  /** Insert `x` into the sorted `s` after every element whose key is at most `key(x)`. */
  function Insert<T>(x: T, s: seq<T>, key: T -> int): (r: seq<T>)
    requires SortedBy(s, key)
    ensures SortedBy(r, key)
    ensures multiset(r) == multiset(s) + multiset{x}
    ensures |r| == |s| + 1
  {
    if |s| == 0 then [x]
    else if key(s[|s| - 1]) <= key(x) then s + [x]
    else
      var init := s[..|s| - 1];
      var last := s[|s| - 1];
      assert s == init + [last];
      var r' := Insert(x, init, key);
      InsertedBelow(x, init, last, r', key);
      SortedSnoc(r', last, key);
      r' + [last]
  }

  /**
   * Stable insertion sort by `key`, the model of `ORDER BY key ASC` (and, with
   * the key negated, of `ORDER BY key DESC`). Rows with equal keys keep the
   * order they have in the table.
   */
  function SortBy<T>(s: seq<T>, key: T -> int): (r: seq<T>)
    ensures SortedBy(r, key)
    ensures multiset(r) == multiset(s)
    ensures |r| == |s|
  {
    if |s| == 0 then []
    else
      var init := s[..|s| - 1];
      assert s == init + [s[|s| - 1]];
      Insert(s[|s| - 1], SortBy(init, key), key)
  }

  /** A permutation has the original's length. */
  lemma PermutationLength<T>(a: seq<T>, b: seq<T>)
    requires multiset(a) == multiset(b)
    ensures |a| == |b|
  {
    assert |multiset(a)| == |multiset(b)|;
  }

  /** Elements of a permutation are the same as those of the original. */
  lemma MultisetMembers<T>(a: seq<T>, b: seq<T>)
    requires multiset(a) == multiset(b)
    ensures forall x :: x in a <==> x in b
  {
    forall x ensures x in a <==> x in b {
      assert x in a <==> x in multiset(a);
      assert x in b <==> x in multiset(b);
    }
  }
}
