/**
 * Python's string order (`<`, `<=` and `sorted()` on `str`): lexicographic
 * by code point, a proper prefix sorting first.
 */
module Ordering {

  predicate LexLt(a: string, b: string)
    decreases |a|
  {
    if a == [] then b != []
    else b != [] && (a[0] < b[0] || (a[0] == b[0] && LexLt(a[1..], b[1..])))
  }

  predicate LexLe(a: string, b: string) { a == b || LexLt(a, b) }

  lemma {:induction false} LexLtIrreflexive(a: string)
    ensures !LexLt(a, a)
    decreases |a|
  {
    if a != [] { LexLtIrreflexive(a[1..]); }
  }

  lemma {:induction false} LexLtAsymmetric(a: string, b: string)
    requires LexLt(a, b)
    ensures !LexLt(b, a)
    decreases |a|
  {
    if a != [] && b != [] && a[0] == b[0] { LexLtAsymmetric(a[1..], b[1..]); }
  }

  lemma {:induction false} LexLtTransitive(a: string, b: string, c: string)
    requires LexLt(a, b) && LexLt(b, c)
    ensures LexLt(a, c)
    decreases |a|
  {
    if a != [] && a[0] == b[0] && b[0] == c[0] { LexLtTransitive(a[1..], b[1..], c[1..]); }
  }

  lemma {:induction false} LexLtTotal(a: string, b: string)
    ensures a == b || LexLt(a, b) || LexLt(b, a)
    decreases |a|
  {
    if a != [] && b != [] && a[0] == b[0] {
      LexLtTotal(a[1..], b[1..]);
      if a[1..] == b[1..] { assert a == [a[0]] + a[1..] && b == [b[0]] + b[1..]; }
    }
  }

  predicate StrictlySorted(s: seq<string>) {
    forall i, j :: 0 <= i < j < |s| ==> LexLt(s[i], s[j])
  }

  predicate IsLeast(m: string, keys: set<string>) {
    m in keys && forall x :: x in keys ==> LexLe(m, x)
  }

  lemma {:induction false} LeastExists(keys: set<string>)
    requires keys != {}
    ensures exists m :: IsLeast(m, keys)
    decreases |keys|
  {
    var y :| y in keys;
    if keys == {y} {
      assert IsLeast(y, keys);
    } else {
      LeastExists(keys - {y});
      var m :| IsLeast(m, keys - {y});
      LexLtTotal(m, y);
      if LexLt(m, y) {
        assert IsLeast(m, keys);
      } else {
        assert m != y && LexLt(y, m);
        forall x | x in keys ensures LexLe(y, x) {
          if x != y {
            assert LexLe(m, x);
            if LexLt(m, x) { LexLtTransitive(y, m, x); }
          }
        }
        assert IsLeast(y, keys);
      }
    }
  }

  lemma LeastUnique(keys: set<string>)
    ensures forall a, b :: IsLeast(a, keys) && IsLeast(b, keys) ==> a == b
  {
    forall a, b | IsLeast(a, keys) && IsLeast(b, keys) ensures a == b {
      if a != b {
        assert LexLt(a, b) && LexLt(b, a);
        LexLtAsymmetric(a, b);
      }
    }
  }

  /** `sorted(keys)` for a set of distinct strings. */
  function SortedStrings(keys: set<string>): (r: seq<string>)
    ensures StrictlySorted(r)
    ensures |r| == |keys|
    ensures forall x :: x in r <==> x in keys
    decreases |keys|
  {
    if keys == {} then []
    else
      LeastExists(keys);
      LeastUnique(keys);
      var m :| IsLeast(m, keys);
      var rest := SortedStrings(keys - {m});
      assert forall x :: x in rest ==> LexLt(m, x);
      [m] + rest
  }
}
