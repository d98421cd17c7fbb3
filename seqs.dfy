/** List comprehensions with a condition, and the subsequence order. */
module Seqs {

  /** `[x for x in s if p(x)]`. */
  function Filter<T>(s: seq<T>, p: T -> bool): (r: seq<T>)
    ensures |r| <= |s|
    ensures forall x :: x in r ==> x in s && p(x)
    ensures forall x :: x in s && p(x) ==> x in r
    decreases |s|
  {
    if s == [] then []
    else
      var init := s[..|s| - 1];
      assert s == init + [s[|s| - 1]];
      Filter(init, p) + (if p(s[|s| - 1]) then [s[|s| - 1]] else [])
  }

  /** The filter keeps every copy of a selected element and no copy of the others. */
  lemma {:induction false} FilterCounts<T>(s: seq<T>, p: T -> bool)
    ensures forall x :: x in s ==> multiset(Filter(s, p))[x] == if p(x) then multiset(s)[x] else 0
    decreases |s|
  {
    if s != [] {
      var init := s[..|s| - 1];
      var last := s[|s| - 1];
      FilterCounts(init, p);
      assert s == init + [last];
      var keep := if p(last) then [last] else [];
      assert Filter(s, p) == Filter(init, p) + keep;
      assert multiset(s) == multiset(init) + multiset{last};
      assert multiset(Filter(s, p)) == multiset(Filter(init, p)) + multiset(keep);
      forall x | x in s
        ensures multiset(Filter(s, p))[x] == if p(x) then multiset(s)[x] else 0
      {
        if x !in init {
          assert multiset(init)[x] == 0;
          assert x !in Filter(init, p);
        }
      }
    }
  }

  /** `a` is `b` with some elements deleted, the rest kept in order. */
  predicate IsSubsequence<T(==)>(a: seq<T>, b: seq<T>)
    decreases |b|
  {
    if a == [] then true
    else if b == [] then false
    else if a[|a| - 1] == b[|b| - 1] then IsSubsequence(a[..|a| - 1], b[..|b| - 1])
    else IsSubsequence(a, b[..|b| - 1])
  }

  lemma {:induction false} FilterIsSubsequence<T>(s: seq<T>, p: T -> bool)
    ensures IsSubsequence(Filter(s, p), s)
    decreases |s|
  {
    if s != [] {
      var init := s[..|s| - 1];
      FilterIsSubsequence(init, p);
      var a := Filter(init, p);
      if p(s[|s| - 1]) {
        assert Filter(s, p)[..|Filter(s, p)| - 1] == a;
      } else {
        assert Filter(s, p) == a;
        if a != [] && a[|a| - 1] == s[|s| - 1] {
          SubsequenceDropLast(a, init);
        }
      }
    }
  }

  lemma {:induction false} SubsequenceRefl<T>(s: seq<T>)
    ensures IsSubsequence(s, s)
    decreases |s|
  {
    if s != [] {
      SubsequenceRefl(s[..|s| - 1]);
    }
  }

  lemma {:induction false} SubsequenceDropLast<T>(a: seq<T>, b: seq<T>)
    requires a != [] && IsSubsequence(a, b)
    ensures IsSubsequence(a[..|a| - 1], b)
    decreases |b|, 0
  {
    var init := b[..|b| - 1];
    assert b == init + [b[|b| - 1]];
    if a[|a| - 1] == b[|b| - 1] {
      SubsequenceWeaken(a[..|a| - 1], init, b[|b| - 1]);
    } else {
      SubsequenceDropLast(a, init);
      SubsequenceWeaken(a[..|a| - 1], init, b[|b| - 1]);
    }
  }

  lemma {:induction false} SubsequenceWeaken<T>(a: seq<T>, b: seq<T>, x: T)
    requires IsSubsequence(a, b)
    ensures IsSubsequence(a, b + [x])
    decreases |b|, 1
  {
    var b' := b + [x];
    assert b'[..|b'| - 1] == b;
    if a != [] && a[|a| - 1] == x {
      SubsequenceDropLast(a, b);
    }
  }

  /** The number of elements of `s` that satisfy `p`. */
  function CountIf<T>(s: seq<T>, p: T -> bool): nat
    decreases |s|
  {
    if s == [] then 0 else CountIf(s[..|s| - 1], p) + (if p(s[|s| - 1]) then 1 else 0)
  }

  lemma {:induction false} FilterLength<T>(s: seq<T>, p: T -> bool)
    ensures |Filter(s, p)| == CountIf(s, p)
    decreases |s|
  {
    if s != [] { FilterLength(s[..|s| - 1], p); }
  }

  lemma {:induction false} FilterAppend<T>(s: seq<T>, x: T, p: T -> bool)
    ensures Filter(s + [x], p) == Filter(s, p) + (if p(x) then [x] else [])
  {
    assert (s + [x])[..|s + [x]| - 1] == s;
  }

  lemma FilterPrefix<T>(s: seq<T>, n: nat, p: T -> bool)
    requires n < |s|
    ensures Filter(s[..n + 1], p) == Filter(s[..n], p) + (if p(s[n]) then [s[n]] else [])
  {
    assert s[..n + 1] == s[..n] + [s[n]];
    FilterAppend(s[..n], s[n], p);
  }

  /** Filtering a non-empty sequence: the filtered front, then the last element if it passes. */
  lemma FilterLast<T>(s: seq<T>, p: T -> bool)
    requires s != []
    ensures Filter(s, p) == Filter(s[..|s| - 1], p) + (if p(s[|s| - 1]) then [s[|s| - 1]] else [])
  {
    FilterPrefix(s, |s| - 1, p);
    assert s[..|s|] == s;
  }

  lemma {:induction false} FilterCongruent<T>(s: seq<T>, p: T -> bool, q: T -> bool)
    requires forall x :: x in s ==> p(x) == q(x)
    ensures Filter(s, p) == Filter(s, q)
    decreases |s|
  {
    if s != [] {
      var init := s[..|s| - 1];
      assert forall x :: x in init ==> x in s;
      FilterCongruent(init, p, q);
    }
  }

  /** The elements `f` sends to `k`. */
  function Labelled<T, K(==)>(f: T -> K, k: K): T -> bool {
    x => f(x) == k
  }

  /** The sum, over `keys`, of how many elements of `s` carry that label. */
  function SumLabelled<T, K(==)>(s: seq<T>, f: T -> K, keys: seq<K>): nat
    decreases |keys|
  {
    if keys == [] then 0
    else SumLabelled(s, f, keys[..|keys| - 1]) + |Filter(s, Labelled(f, keys[|keys| - 1]))|
  }

  predicate Distinct<K(==)>(keys: seq<K>) {
    forall i, j :: 0 <= i < j < |keys| ==> keys[i] != keys[j]
  }

  lemma {:induction false} SumLabelledStep<T, K>(s: seq<T>, x: T, f: T -> K, keys: seq<K>)
    requires Distinct(keys)
    ensures SumLabelled(s + [x], f, keys) == SumLabelled(s, f, keys) + (if f(x) in keys then 1 else 0)
    decreases |keys|
  {
    if keys != [] {
      var init := keys[..|keys| - 1];
      var k := keys[|keys| - 1];
      SumLabelledStep(s, x, f, init);
      FilterAppend(s, x, Labelled(f, k));
      assert f(x) in keys <==> f(x) in init || f(x) == k;
      assert f(x) == k ==> f(x) !in init;
    }
  }

  /** Labels that cover every element partition it: the filtered sizes add up to the length. */
  lemma {:induction false} PartitionSizes<T, K>(s: seq<T>, f: T -> K, keys: seq<K>)
    requires Distinct(keys)
    requires forall x :: x in s ==> f(x) in keys
    ensures SumLabelled(s, f, keys) == |s|
    decreases |s|
  {
    if s == [] {
      EmptySums(f, keys);
    } else {
      var init := s[..|s| - 1];
      assert forall x :: x in init ==> x in s;
      PartitionSizes(init, f, keys);
      assert s == init + [s[|s| - 1]];
      SumLabelledStep(init, s[|s| - 1], f, keys);
    }
  }

  lemma {:induction false} EmptySums<T, K>(f: T -> K, keys: seq<K>)
    ensures SumLabelled([], f, keys) == 0
    decreases |keys|
  {
    if keys != [] {
      EmptySums(f, keys[..|keys| - 1]);
    }
  }

  /** Filtering twice keeps what both conditions keep. */
  lemma {:induction false} FilterFilter<T>(s: seq<T>, p: T -> bool, q: T -> bool, both: T -> bool)
    requires forall x :: both(x) == (p(x) && q(x))
    ensures Filter(Filter(s, p), q) == Filter(s, both)
    decreases |s|
  {
    if s != [] {
      var init := s[..|s| - 1];
      var x := s[|s| - 1];
      FilterFilter(init, p, q, both);
      if p(x) {
        FilterAppend(Filter(init, p), x, q);
      } else {
        assert Filter(init, p) + [] == Filter(init, p);
      }
      assert Filter(init, both) + [] == Filter(init, both);
    }
  }
}
