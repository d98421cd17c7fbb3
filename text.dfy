/**
 * The few pieces of Python's `str` behaviour the pipeline relies on:
 * whitespace and `strip()`, ASCII `lower()`, substring search, `split`,
 * `join`, decimal rendering of integers and slicing with a possibly
 * negative bound.
 */
module Text {

  /** Python's whitespace: `str.isspace()`, and `\s` in a `str` pattern. */
  predicate IsSpace(c: char) {
    || ('\t' <= c <= '\r')
    || ('\U{1C}' <= c <= ' ')
    || c == '\U{85}' || c == '\U{A0}' || c == '\U{1680}'
    || ('\U{2000}' <= c <= '\U{200A}')
    || c == '\U{2028}' || c == '\U{2029}' || c == '\U{202F}' || c == '\U{205F}' || c == '\U{3000}'
  }

  predicate IsDigit(c: char) { '0' <= c <= '9' }

  predicate IsAsciiLetter(c: char) { ('a' <= c <= 'z') || ('A' <= c <= 'Z') }

  /** `\w` over ASCII: letters, digits and the underscore. */
  predicate IsWordChar(c: char) { IsAsciiLetter(c) || IsDigit(c) || c == '_' }

  predicate AllDigits(t: string) { forall i :: 0 <= i < |t| ==> IsDigit(t[i]) }

  /** Neither end of `s` is whitespace. */
  predicate IsStripped(s: string) { s == [] || (!IsSpace(s[0]) && !IsSpace(s[|s| - 1])) }

  function SkipSpace(s: string, i: nat): (r: nat)
    requires i <= |s|
    ensures i <= r <= |s|
    ensures forall k :: i <= k < r ==> IsSpace(s[k])
    ensures r == |s| || !IsSpace(s[r])
    decreases |s| - i
  {
    if i < |s| && IsSpace(s[i]) then SkipSpace(s, i + 1) else i
  }

  function SkipSpaceBack(s: string, j: nat): (r: nat)
    requires j <= |s|
    ensures r <= j
    ensures forall k :: r <= k < j ==> IsSpace(s[k])
    ensures r == 0 || !IsSpace(s[r - 1])
  {
    if j > 0 && IsSpace(s[j - 1]) then SkipSpaceBack(s, j - 1) else j
  }

  /** `s.strip()`. */
  function Strip(s: string): (r: string)
    ensures IsStripped(r)
    ensures |r| <= |s|
    ensures r == [] <==> forall k :: 0 <= k < |s| ==> IsSpace(s[k])
  {
    var i := SkipSpace(s, 0);
    var t := s[i..];
    var j := SkipSpaceBack(t, |t|);
    assert i < |s| ==> !IsSpace(t[0]) && j > 0;
    t[..j]
  }

  lemma StripOfStripped(s: string)
    requires IsStripped(s)
    ensures Strip(s) == s
  {
    if s != [] {
      assert SkipSpace(s, 0) == 0;
      assert s[0..] == s;
      assert SkipSpaceBack(s, |s|) == |s|;
    }
  }

  predicate AllSpace(w: string) { forall k :: 0 <= k < |w| ==> IsSpace(w[k]) }

  /** `s[a..b]` is whitespace only. */
  predicate SpaceIn(s: string, a: nat, b: nat) { forall k :: a <= k < b && k < |s| ==> IsSpace(s[k]) }

  /** `strip()` keeps exactly the window between the leading and the trailing whitespace. */
  lemma StripWindow(s: string, i: nat, j: nat)
    requires i < j <= |s| && !IsSpace(s[i]) && !IsSpace(s[j - 1])
    requires SpaceIn(s, 0, i) && SpaceIn(s, j, |s|)
    ensures Strip(s) == s[i..j]
  {
    var a := SkipSpace(s, 0);
    assert a == i;
    var t := s[i..];
    assert forall k :: j - i <= k < |t| ==> IsSpace(t[k]) by {
      forall k | j - i <= k < |t| ensures IsSpace(t[k]) { assert t[k] == s[i + k]; }
    }
    assert t[j - i - 1] == s[j - 1];
    var b := SkipSpaceBack(t, |t|);
    assert b == j - i;
    assert t[..b] == s[i..j];
  }

  /** Where `strip()` cuts a string that is not all whitespace. */
  lemma StripSpan(s: string) returns (i: nat, j: nat)
    requires !AllSpace(s)
    ensures i < j <= |s| && !IsSpace(s[i]) && !IsSpace(s[j - 1])
    ensures SpaceIn(s, 0, i) && SpaceIn(s, j, |s|) && Strip(s) == s[i..(j)]
  {
    i := SkipSpace(s, 0);
    var u := s[i..];
    j := i + SkipSpaceBack(u, |u|);
    assert u[j - i - 1] == s[j - 1];
    assert SpaceIn(s, j, |s|) by {
      forall k | j <= k < |s| ensures IsSpace(s[k]) { assert s[k] == u[k - i]; }
    }
    assert u[..j - i] == s[i..j];
  }

  lemma StripAllSpace(s: string)
    requires AllSpace(s)
    ensures Strip(s) == []
  {
  }

  /** Whitespace padding on both sides leaves a window of `t` where it was, shifted by the padding. */
  lemma PaddedWindow(w1: string, t: string, w2: string, i: nat, j: nat)
    requires AllSpace(w1) && AllSpace(w2)
    requires i < j <= |t| && SpaceIn(t, 0, i) && SpaceIn(t, j, |t|)
    ensures SpaceIn(w1 + t + w2, 0, |w1| + i) && SpaceIn(w1 + t + w2, |w1| + j, |w1 + t + w2|)
    ensures (w1 + t + w2)[|w1| + i] == t[i] && (w1 + t + w2)[|w1| + j - 1] == t[j - 1]
    ensures (w1 + t + w2)[|w1| + i..|w1| + j] == t[i..j]
  {
    var s := w1 + t + w2;
    var m := |w1|;
    forall k | 0 <= k < m + i ensures IsSpace(s[k]) {
      if k < m { assert s[k] == w1[k]; } else { assert s[k] == t[k - m]; }
    }
    forall k | m + j <= k < |s| ensures IsSpace(s[k]) {
      if k < m + |t| { assert s[k] == t[k - m]; } else { assert s[k] == w2[k - m - |t|]; }
    }
    assert s[m + i..m + j] == t[i..j] by {
      forall k | 0 <= k < j - i ensures s[m + i..m + j][k] == t[i..j][k] { assert s[m + i + k] == t[i + k]; }
    }
  }

  lemma PaddedAllSpace(w1: string, t: string, w2: string)
    requires AllSpace(w1) && AllSpace(t) && AllSpace(w2)
    ensures AllSpace(w1 + t + w2)
  {
    var s := w1 + t + w2;
    var m := |w1|;
    forall k | 0 <= k < |s| ensures IsSpace(s[k]) {
      if k < m { assert s[k] == w1[k]; }
      else if k < m + |t| { assert s[k] == t[k - m]; }
      else { assert s[k] == w2[k - m - |t|]; }
    }
  }

  /** Whitespace added around a string does not change what `strip()` gives. */
  lemma StripPadded(w1: string, t: string, w2: string)
    requires AllSpace(w1) && AllSpace(w2)
    ensures Strip(w1 + t + w2) == Strip(t)
  {
    if AllSpace(t) {
      PaddedAllSpace(w1, t, w2);
      StripAllSpace(w1 + t + w2);
      StripAllSpace(t);
    } else {
      var i, j := StripSpan(t);
      PaddedWindow(w1, t, w2, i, j);
      StripWindow(w1 + t + w2, |w1| + i, |w1| + j);
    }
  }

  function LowerChar(c: char): char {
    if 'A' <= c <= 'Z' then (c as int + 32) as char else c
  }

  /** `s.lower()` over ASCII. */
  function Lower(s: string): (r: string)
    ensures |r| == |s|
    ensures forall i :: 0 <= i < |s| ==> r[i] == LowerChar(s[i])
  {
    seq(|s|, i requires 0 <= i < |s| => LowerChar(s[i]))
  }

  lemma LowerSpaceIn(s: string, a: nat, b: nat)
    requires SpaceIn(s, a, b)
    ensures SpaceIn(Lower(s), a, b)
  {
    var l := Lower(s);
    forall k | a <= k < b && k < |l| ensures IsSpace(l[k]) { assert l[k] == LowerChar(s[k]); }
  }

  /** Lower-casing neither makes nor removes whitespace, so it commutes with `strip()`. */
  lemma LowerStrip(s: string)
    ensures Lower(Strip(s)) == Strip(Lower(s))
  {
    if AllSpace(s) {
      LowerSpaceIn(s, 0, |s|);
      StripAllSpace(s);
      StripAllSpace(Lower(s));
    } else {
      var i, j := StripSpan(s);
      LowerSpaceIn(s, 0, i);
      LowerSpaceIn(s, j, |s|);
      LowerSlice(s, i, j);
      StripWindow(Lower(s), i, j);
    }
  }

  lemma LowerSlice(s: string, i: nat, j: nat)
    requires i < j <= |s| && !IsSpace(s[i]) && !IsSpace(s[j - 1])
    ensures !IsSpace(Lower(s)[i]) && !IsSpace(Lower(s)[j - 1])
    ensures Lower(s[i..j]) == Lower(s)[i..j]
  {
  }

  predicate StartsWith(s: string, prefix: string) {
    |prefix| <= |s| && s[..|prefix|] == prefix
  }

  predicate EndsWith(s: string, suffix: string) {
    |suffix| <= |s| && s[|s| - |suffix|..] == suffix
  }

  predicate OccursAt(hay: string, needle: string, k: nat) {
    k + |needle| <= |hay| && hay[k..k + |needle|] == needle
  }

  predicate ContainsFrom(hay: string, needle: string, k: nat)
    decreases |hay| - k
  {
    k + |needle| <= |hay| && (hay[k..k + |needle|] == needle || ContainsFrom(hay, needle, k + 1))
  }

  lemma ContainsFromMeans(hay: string, needle: string, k: nat)
    ensures ContainsFrom(hay, needle, k) <==> exists j :: k <= j && OccursAt(hay, needle, j)
    decreases |hay| - k
  {
    if k + |needle| <= |hay| {
      ContainsFromMeans(hay, needle, k + 1);
      if OccursAt(hay, needle, k) {
        assert ContainsFrom(hay, needle, k);
      } else if exists j :: k <= j && OccursAt(hay, needle, j) {
        var j :| k <= j && OccursAt(hay, needle, j);
        if j > k { assert k + 1 <= j; }
      }
    }
  }

  /** `needle in hay`: a substring test. */
  function Contains(hay: string, needle: string): (r: bool)
    ensures r <==> exists k :: OccursAt(hay, needle, k)
  {
    ContainsFromMeans(hay, needle, 0);
    ContainsFrom(hay, needle, 0)
  }

  /** Whatever character the needle holds, a haystack containing it holds too. */
  lemma ContainsChar(hay: string, needle: string, c: char)
    requires Contains(hay, needle) && c in needle
    ensures c in hay
  {
    var k: nat :| OccursAt(hay, needle, k);
    var i :| 0 <= i < |needle| && needle[i] == c;
    assert hay[k + i] == hay[k..k + |needle|][i];
  }

  /** `any(k in hay for k in needles)`. */
  function ContainsAny(hay: string, needles: seq<string>): (r: bool)
    ensures r <==> exists i :: 0 <= i < |needles| && Contains(hay, needles[i])
  {
    exists i :: 0 <= i < |needles| && Contains(hay, needles[i])
  }

  /** `sep.join(parts)`. */
  function Join(parts: seq<string>, sep: string): string
  {
    if parts == [] then []
    else if |parts| == 1 then parts[0]
    else Join(parts[..|parts| - 1], sep) + sep + parts[|parts| - 1]
  }

  function IndexOf(s: string, c: char): (r: nat)
    requires c in s
    ensures r < |s| && s[r] == c && c !in s[..(r)]
  {
    if s[0] == c then 0
    else
      assert c in s[1..];
      var r := 1 + IndexOf(s[1..], c);
      assert s[..r] == [s[0]] + s[1..][..r - 1];
      r
  }

  /** The first occurrence is the only position holding `c` with no `c` before it. */
  lemma IndexOfIs(s: string, c: char, k: nat)
    requires k < |s| && s[k] == c && c !in s[..k]
    ensures IndexOf(s, c) == k
  {
    var i := IndexOf(s, c);
    forall j | 0 <= j < k ensures s[j] != c { assert s[..k][j] == s[j]; }
    forall j | 0 <= j < i ensures s[j] != c { assert s[..i][j] == s[j]; }
  }

  /** `s.split(c)` for a one-character separator. */
  function Split(s: string, c: char): (r: seq<string>)
    ensures |r| >= 1
    ensures forall i :: 0 <= i < |r| ==> c !in r[i]
    decreases |s|
  {
    if c in s then
      var i := IndexOf(s, c);
      [s[..i]] + Split(s[i + 1..], c)
    else [s]
  }

  lemma {:induction false} JoinCons(a: string, rest: seq<string>, sep: string)
    requires rest != []
    ensures Join([a] + rest, sep) == a + sep + Join(rest, sep)
    decreases |rest|
  {
    var parts := [a] + rest;
    if |rest| > 1 {
      assert parts[..|parts| - 1] == [a] + rest[..|rest| - 1];
      JoinCons(a, rest[..|rest| - 1], sep);
    }
  }

  lemma {:induction false} NotInJoin(parts: seq<string>, sep: string, c: char)
    requires c !in sep
    requires forall i :: 0 <= i < |parts| ==> c !in parts[i]
    ensures c !in Join(parts, sep)
    decreases |parts|
  {
    if |parts| > 1 {
      NotInJoin(parts[..|parts| - 1], sep, c);
    }
  }

  lemma {:induction false} SplitCons(a: string, c: char, b: string)
    requires c !in a
    ensures Split(a + [c] + b, c) == [a] + Split(b, c)
  {
    var s := a + [c] + b;
    assert s[|a|] == c;
    var i := IndexOf(s, c);
    assert s[..|a|] == a;
    assert s[|a| + 1..] == b;
  }

  /** Splitting a join undoes it, when no part holds the separator. */
  lemma {:induction false} SplitJoin(parts: seq<string>, c: char)
    requires parts != []
    requires forall i :: 0 <= i < |parts| ==> c !in parts[i]
    ensures Split(Join(parts, [c]), c) == parts
    decreases |parts|
  {
    if |parts| > 1 {
      var rest := parts[1..];
      assert parts == [parts[0]] + rest;
      JoinCons(parts[0], rest, [c]);
      SplitJoin(rest, c);
      SplitCons(parts[0], c, Join(rest, [c]));
    }
  }

  /** Joining the pieces of a split gives the string back. */
  lemma {:induction false} JoinSplit(s: string, c: char)
    ensures Join(Split(s, c), [c]) == s
    decreases |s|
  {
    if c in s {
      var i := IndexOf(s, c);
      var rest := Split(s[i + 1..], c);
      JoinSplit(s[i + 1..], c);
      JoinCons(s[..i], rest, [c]);
      assert s == s[..i] + [c] + s[i + 1..];
    }
  }

  function DigitChar(d: nat): (c: char)
    requires d < 10
    ensures IsDigit(c)
  {
    ('0' as int + d) as char
  }

  function DigitValue(c: char): (d: nat)
    requires IsDigit(c)
    ensures d < 10 && DigitChar(d) == c
  {
    c as int - '0' as int
  }

  /** The value of a string of decimal digits (0 for the empty string). */
  function DigitsValue(t: string): nat
    requires AllDigits(t)
  {
    if t == [] then 0 else DigitsValue(t[..|t| - 1]) * 10 + DigitValue(t[|t| - 1])
  }

  lemma DigitsValueShort(t: string)
    ensures |t| == 1 && AllDigits(t) ==> DigitsValue(t) == DigitValue(t[0])
    ensures |t| == 2 && AllDigits(t) ==> DigitsValue(t) == DigitValue(t[0]) * 10 + DigitValue(t[1])
  {
    if 1 <= |t| <= 2 && AllDigits(t) {
      assert t[..|t| - 1][..0] == [];
    }
  }

  /** `str(n)` for a non-negative integer. */
  function NatToString(n: nat): (r: string)
    ensures |r| >= 1 && AllDigits(r)
  {
    if n < 10 then [DigitChar(n)] else NatToString(n / 10) + [DigitChar(n % 10)]
  }

  lemma {:induction false} NatToStringRoundTrip(n: nat)
    ensures DigitsValue(NatToString(n)) == n
  {
    if n >= 10 {
      NatToStringRoundTrip(n / 10);
      var t := NatToString(n);
      assert t[..|t| - 1] == NatToString(n / 10);
    }
  }

  function Min(a: int, b: int): int { if a <= b then a else b }

  /** Python's `s[:k]`: a negative `k` counts from the end. */
  function PyPrefix(s: string, k: int): (r: string)
    ensures |r| == (if k >= 0 then Min(k, |s|) else if |s| + k >= 0 then |s| + k else 0)
    ensures r == s[..|r|]
  {
    if k >= 0 then (if k <= |s| then s[..k] else s)
    else if |s| + k >= 0 then s[..|s| + k]
    else []
  }

  /** The front and the back of a slice are slices of the whole. */
  lemma SliceOfSlice<T>(s: seq<T>, p: nat, m: nat, k: nat)
    requires p <= m <= |s| && k <= m - p
    ensures s[p..m][..k] == s[p..p + k] && s[p..m][k..] == s[p + k..m]
  {
  }

  lemma AllDigitsAppend(a: string, b: string)
    requires AllDigits(a) && AllDigits(b)
    ensures AllDigits(a + b)
  {
    forall i | 0 <= i < |a + b|
      ensures IsDigit((a + b)[i])
    {
      if i < |a| { assert (a + b)[i] == a[i]; } else { assert (a + b)[i] == b[i - |a|]; }
    }
  }

  /** A sequence is its part before `i`, its element at `i` and its part after. */
  lemma SplitAround<T>(s: seq<T>, i: nat)
    requires i < |s|
    ensures s == s[..i] + [s[i]] + s[i + 1..]
  {
  }

  /** A slice of a slice is a slice of the whole. */
  lemma SliceWithin<T>(s: seq<T>, p: nat, e: nat, i: nat, j: nat)
    requires p <= e <= |s| && i <= j <= e - p
    ensures s[p..e][..j] == s[p..p + j] && s[p..e][i..j] == s[p + i..p + j]
  {
  }
}
