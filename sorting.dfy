/** Sorting as the sources use it: Python's sorted() on a list of integers,
    sorting the elements of a set, and list.sort(key=...) / Array.prototype.sort
    with a key compared lexicographically (strings compare by character codes,
    integers as one-element keys). */
module Sorting {

  predicate Sorted(s: seq<int>) {
    forall i, j :: 0 <= i < j < |s| ==> s[i] <= s[j]
  }

  predicate StrictlyIncreasing(s: seq<int>) {
    forall i, j :: 0 <= i < j < |s| ==> s[i] < s[j]
  }

  /** `r` lists the elements of `s` once each, in increasing order. */
  predicate IsSortedSetOf(r: seq<int>, s: set<int>) {
    StrictlyIncreasing(r) && (forall y | y in r :: y in s) && (forall y | y in s :: y in r)
  }

  /** Putting an element no larger than any of an ascending sequence in front keeps it ascending. */
  lemma PrependSorted(h: int, t: seq<int>)
    requires Sorted(t) && forall j :: 0 <= j < |t| ==> h <= t[j]
    ensures Sorted([h] + t)
  {
    var r := [h] + t;
    forall i, j | 0 <= i < j < |r| ensures r[i] <= r[j] {
      assert r[j] == t[j - 1];
      if i > 0 { assert r[i] == t[i - 1]; }
    }
  }

  /** An element of `t` whose multiset is `multiset(u) + {x}` is `x` or an element of `u`. */
  lemma MemberOfAdded<T>(y: T, t: seq<T>, u: seq<T>, x: T)
    requires multiset(t) == multiset(u) + multiset{x} && y in t
    ensures y == x || y in u
  {
    assert y in multiset(t);
    if y != x { assert y in multiset(u); }
  }

  function Insert(x: int, s: seq<int>): (r: seq<int>)
    requires Sorted(s)
    ensures Sorted(r) && multiset(r) == multiset(s) + multiset{x}
  {
    if |s| == 0 then [x]
    else if x <= s[0] then
      PrependSorted(x, s);
      [x] + s
    else
      var t := Insert(x, s[1..]);
      assert s == [s[0]] + s[1..];
      forall j | 0 <= j < |t| ensures s[0] <= t[j] {
        MemberOfAdded(t[j], t, s[1..], x);
      }
      PrependSorted(s[0], t);
      [s[0]] + t
  }

  /** Python's `sorted(xs)` on integers: ascending, and a permutation of `xs`. */
  function SortInts(s: seq<int>): (r: seq<int>)
    ensures Sorted(r) && multiset(r) == multiset(s)
  {
    if |s| == 0 then []
    else
      assert s == [s[0]] + s[1..];
      Insert(s[0], SortInts(s[1..]))
  }

  /** The first element of an ascending sequence is its least element. */
  lemma SortedHeadLeast(a: seq<int>, y: int)
    requires Sorted(a) && y in multiset(a)
    ensures a[0] <= y
  {
    assert y in a;
    var i :| 0 <= i < |a| && a[i] == y;
  }

  lemma MultisetTail(a: seq<int>)
    requires |a| > 0
    ensures multiset(a[1..]) == multiset(a) - multiset{a[0]}
  {
    assert a == [a[0]] + a[1..];
  }
  lemma SortedTail(a: seq<int>)
    requires |a| > 0 && Sorted(a)
    ensures Sorted(a[1..])
  {
    var t := a[1..];
    forall i, j | 0 <= i < j < |t| ensures t[i] <= t[j] {
      assert t[i] == a[i + 1] && t[j] == a[j + 1];
    }
  }
  /** Two ascending sequences with the same elements (with multiplicity) are equal. */
  lemma {:induction false} SortedUnique(a: seq<int>, b: seq<int>)
    requires Sorted(a) && Sorted(b) && multiset(a) == multiset(b)
    ensures a == b
    decreases |a|
  {
    if |a| == 0 {
      assert |b| == |multiset(b)|;
    } else {
      assert |b| == |multiset(b)| == |multiset(a)| == |a|;
      assert b[0] in multiset(b) && a[0] in multiset(a);
      SortedHeadLeast(a, b[0]);
      SortedHeadLeast(b, a[0]);
      var h := a[0];
      assert b[0] == h;
      MultisetTail(a);
      MultisetTail(b);
      var ta, tb := a[1..], b[1..];
      assert multiset(ta) == multiset(tb);
      SortedTail(a);
      SortedTail(b);
      SortedUnique(ta, tb);
      assert a == [h] + ta;
      assert b == [h] + tb;
    }
  }

  /** Sorting depends only on the multiset of the input: the order the
      elements arrive in does not matter. */
  lemma SortIntsPermutation(a: seq<int>, b: seq<int>)
    requires multiset(a) == multiset(b)
    ensures SortInts(a) == SortInts(b)
  {
    SortedUnique(SortInts(a), SortInts(b));
  }

  /** Sorting an already ascending sequence gives it back. */
  lemma SortIntsSorted(s: seq<int>)
    requires Sorted(s)
    ensures SortInts(s) == s
  {
    SortedUnique(SortInts(s), s);
  }

  lemma StrictlyIncreasingIsSorted(s: seq<int>)
    requires StrictlyIncreasing(s)
    ensures Sorted(s)
  {
  }

  /** The elements of a set in increasing order, as `sorted(a_set)` gives them:
      the smallest remaining element is taken until none is left. */
  method SortSet(s: set<int>) returns (r: seq<int>)
    ensures IsSortedSetOf(r, s)
  {
    r := [];
    var rest := s;
    while rest != {}
      invariant StrictlyIncreasing(r)
      invariant forall y :: y in s <==> y in r || y in rest
      invariant forall y, z :: y in r && z in rest ==> y < z
      invariant forall y :: y in r ==> y !in rest
      decreases |rest|
    {
      var m := MinOf(rest);
      assert forall i :: 0 <= i < |r| ==> r[i] in r;
      r := r + [m];
      rest := rest - {m};
    }
  }

  /** The smallest element of a non-empty set. */
  method MinOf(s: set<int>) returns (m: int)
    requires s != {}
    ensures m in s && forall y :: y in s ==> m <= y
  {
    NonEmptyHasElement(s);
    m :| m in s;
    var rest := s - {m};
    while rest != {}
      invariant m in s && rest <= s
      invariant forall y :: y in s && y !in rest ==> m <= y
      decreases |rest|
    {
      NonEmptyHasElement(rest);
      var y :| y in rest;
      if y < m { m := y; }
      rest := rest - {y};
    }
  }

  lemma NonEmptyHasElement(s: set<int>)
    requires s != {}
    ensures exists y :: y in s
  {
    if forall y :: y !in s { assert false; }
  }

  /** No element occurs twice. */
  predicate NoDup<T(==)>(s: seq<T>) {
    forall i, j :: 0 <= i < j < |s| ==> s[i] != s[j]
  }

  lemma {:induction false} NoDupCounts<T>(s: seq<T>)
    requires NoDup(s)
    ensures forall x :: multiset(s)[x] <= 1
  {
    if |s| > 0 {
      var init, last := s[..|s| - 1], s[|s| - 1];
      assert s == init + [last];
      NoDupCounts(init);
      assert last !in init;
    }
  }

  lemma RepeatCounts<T>(s: seq<T>, i: int, j: int)
    requires 0 <= i < j < |s| && s[i] == s[j]
    ensures multiset(s)[s[i]] >= 2
  {
    assert s == s[..j] + s[j..];
    assert s[i] in s[..j];
    assert s[j] in s[j..];
  }

  /** Sorting a duplicate-free sequence gives a strictly increasing one. */
  lemma SortedNoDupStrict(r: seq<int>, s: seq<int>)
    requires Sorted(r) && multiset(r) == multiset(s) && NoDup(s)
    ensures StrictlyIncreasing(r)
  {
    NoDupCounts(s);
    forall i, j | 0 <= i < j < |r| ensures r[i] < r[j] {
      if r[i] == r[j] {
        RepeatCounts(r, i, j);
      }
    }
  }

  /** A set has only one ascending listing. */
  lemma SortedSetUnique(a: seq<int>, b: seq<int>, s: set<int>)
    requires IsSortedSetOf(a, s) && IsSortedSetOf(b, s)
    ensures a == b
  {
    NoDupCounts(a);
    NoDupCounts(b);
    forall x ensures multiset(a)[x] == multiset(b)[x] {
      if x in a {
        assert x in b;
      } else {
        assert x !in b;
      }
    }
    assert multiset(a) == multiset(b);
    SortedUnique(a, b);
  }

  /** `[f(x) for x in s]`. */
  function Map<A, B>(f: A -> B, s: seq<A>): (r: seq<B>)
    ensures |r| == |s| && forall i :: 0 <= i < |s| ==> r[i] == f(s[i])
  {
    seq(|s|, i requires 0 <= i < |s| => f(s[i]))
  }

  lemma MapConcat<A, B>(f: A -> B, x: seq<A>, y: seq<A>)
    ensures Map(f, x + y) == Map(f, x) + Map(f, y)
  {
  }

  /** Taking the first element from one arrangement and its copy at `k` from
      the other leaves two arrangements of the same elements. */
  lemma MultisetRemove<A>(a: seq<A>, b: seq<A>, k: int)
    requires |a| > 0 && 0 <= k < |b| && b[k] == a[0] && multiset(a) == multiset(b)
    ensures multiset(a[1..]) == multiset(b[..k] + b[k + 1..])
  {
    assert a == [a[0]] + a[1..];
    assert b == b[..k] + [b[k]] + b[k + 1..];
    assert multiset(a[1..]) == multiset(a) - multiset{a[0]};
    assert multiset(b[..k] + b[k + 1..]) == multiset(b) - multiset{b[k]};
  }

  /** Mapping two arrangements of the same elements gives two arrangements
      of the same images. */
  lemma {:induction false} MapPermutation<A, B>(f: A -> B, a: seq<A>, b: seq<A>)
    requires multiset(a) == multiset(b)
    ensures multiset(Map(f, a)) == multiset(Map(f, b))
    decreases |a|
  {
    if |a| == 0 {
      assert |b| == |multiset(b)| == 0;
    } else {
      var x := a[0];
      assert x in multiset(b);
      var k :| 0 <= k < |b| && b[k] == x;
      var rest := b[..k] + b[k + 1..];
      MultisetRemove(a, b, k);
      MapPermutation(f, a[1..], rest);
      var left, right := Map(f, b[..k]), Map(f, b[k + 1..]);
      assert Map(f, a) == [f(x)] + Map(f, a[1..]);
      assert Map(f, b) == left + [f(x)] + right;
      assert Map(f, rest) == left + right;
      assert multiset(Map(f, a)) == multiset{f(x)} + multiset(Map(f, a[1..]));
      assert multiset(Map(f, b)) == multiset(left) + multiset{f(x)} + multiset(right);
    }
  }

  // ---------------------------------------------------------------------------
  // Keyed sorting

  /** Lexicographic order on keys; a proper prefix comes first. */
  predicate LexLe(a: seq<int>, b: seq<int>) {
    |a| == 0 || (|b| > 0 && (a[0] < b[0] || (a[0] == b[0] && LexLe(a[1..], b[1..]))))
  }

  lemma {:induction false} LexTotal(a: seq<int>, b: seq<int>)
    ensures LexLe(a, b) || LexLe(b, a)
  {
    if |a| > 0 && |b| > 0 && a[0] == b[0] { LexTotal(a[1..], b[1..]); }
  }

  lemma {:induction false} LexTrans(a: seq<int>, b: seq<int>, c: seq<int>)
    requires LexLe(a, b) && LexLe(b, c)
    ensures LexLe(a, c)
  {
    if |a| > 0 && |b| > 0 && |c| > 0 && a[0] == b[0] == c[0] { LexTrans(a[1..], b[1..], c[1..]); }
  }

  lemma {:induction false} LexAntisym(a: seq<int>, b: seq<int>)
    requires LexLe(a, b) && LexLe(b, a)
    ensures a == b
  {
    if |a| > 0 {
      LexAntisym(a[1..], b[1..]);
      assert a == [a[0]] + a[1..] && b == [b[0]] + b[1..];
    }
  }

  /** The character codes of a string, the key Python and JavaScript compare strings by. */
  function Codes(s: string): (r: seq<int>)
    ensures |r| == |s| && forall i :: 0 <= i < |s| ==> r[i] == s[i] as int
  {
    seq(|s|, i requires 0 <= i < |s| => s[i] as int)
  }

  /** Equal keys come only from equal strings. */
  lemma CodesInjective(a: string, b: string)
    requires Codes(a) == Codes(b)
    ensures a == b
  {
    assert |a| == |b|;
    forall i | 0 <= i < |a| ensures a[i] == b[i] {
      assert Codes(a)[i] == Codes(b)[i];
    }
  }

  predicate SortedBy<T>(s: seq<T>, key: T -> seq<int>) {
    forall i, j :: 0 <= i < j < |s| ==> LexLe(key(s[i]), key(s[j]))
  }

  lemma PrependSortedBy<T>(h: T, t: seq<T>, key: T -> seq<int>)
    requires SortedBy(t, key) && forall j :: 0 <= j < |t| ==> LexLe(key(h), key(t[j]))
    ensures SortedBy([h] + t, key)
  {
    var r := [h] + t;
    forall i, j | 0 <= i < j < |r| ensures LexLe(key(r[i]), key(r[j])) {
      assert r[j] == t[j - 1];
      if i > 0 { assert r[i] == t[i - 1]; }
    }
  }

  lemma AppendSortedBy<T>(t: seq<T>, x: T, key: T -> seq<int>)
    requires SortedBy(t, key) && forall j :: 0 <= j < |t| ==> LexLe(key(t[j]), key(x))
    ensures SortedBy(t + [x], key)
  {
    var r := t + [x];
    forall i, j | 0 <= i < j < |r| ensures LexLe(key(r[i]), key(r[j])) {
      assert r[i] == t[i];
      if j < |t| { assert r[j] == t[j]; }
    }
  }

  /** The position of the first element of `s` that satisfies `p`. */
  function FirstWhere<T>(p: T -> bool, s: seq<T>): (i: nat)
    requires exists j :: 0 <= j < |s| && p(s[j])
    ensures i < |s| && p(s[i])
    ensures forall j :: 0 <= j < i ==> !p(s[j])
    decreases |s|
  {
    if p(s[0]) then 0
    else
      assert exists j :: 0 <= j < |s[1..]| && p(s[1..][j]) by {
        var j :| 0 <= j < |s| && p(s[j]);
        assert s[1..][j - 1] == s[j];
      }
      var i := FirstWhere(p, s[1..]);
      assert forall j :: 1 <= j <= i ==> s[j] == s[1..][j - 1];
      1 + i
  }

  /** The elements of `s` that satisfy `p`, in their order. */
  function Filter<T>(p: T -> bool, s: seq<T>): (r: seq<T>)
    ensures |r| <= |s|
  {
    if |s| == 0 then []
    else Filter(p, s[..|s| - 1]) + if p(s[|s| - 1]) then [s[|s| - 1]] else []
  }

  lemma {:induction false} FilterMembers<T>(p: T -> bool, s: seq<T>)
    ensures forall x :: x in Filter(p, s) <==> x in s && p(x)
  {
    if |s| > 0 {
      var init, last := s[..|s| - 1], s[|s| - 1];
      FilterMembers(p, init);
      assert s == init + [last];
    }
  }

  /** Filtering one more element of `s` extends the filtered prefix by it
      when it passes. */
  lemma FilterSnoc<T>(p: T -> bool, s: seq<T>, i: nat)
    requires i < |s|
    ensures s[..i + 1] == s[..i] + [s[i]]
    ensures Filter(p, s[..i + 1]) == Filter(p, s[..i]) + if p(s[i]) then [s[i]] else []
  {
    assert s[..i + 1][..i] == s[..i];
  }

  /** The images of the filtered prefix grow by the next element's image
      when it passes. */
  lemma MapFilterSnoc<A, B>(f: A -> B, p: A -> bool, s: seq<A>, i: nat)
    requires i < |s|
    ensures Map(f, Filter(p, s[..i + 1])) == Map(f, Filter(p, s[..i])) + if p(s[i]) then [f(s[i])] else []
  {
    FilterSnoc(p, s, i);
    MapConcat(f, Filter(p, s[..i]), if p(s[i]) then [s[i]] else []);
  }

  /** Each element of a filter comes from the input and passes. */
  lemma FilterElement<T>(p: T -> bool, s: seq<T>, j: int)
    requires 0 <= j < |Filter(p, s)|
    ensures Filter(p, s)[j] in s && p(Filter(p, s)[j])
  {
    FilterMembers(p, s);
    assert Filter(p, s)[j] in Filter(p, s);
  }

  lemma FilterBelow<T>(p: T -> bool, s: seq<T>, key: T -> seq<int>, x: T)
    requires forall i :: 0 <= i < |s| ==> LexLe(key(s[i]), key(x))
    ensures forall j :: 0 <= j < |Filter(p, s)| ==> LexLe(key(Filter(p, s)[j]), key(x))
  {
    forall j | 0 <= j < |Filter(p, s)| ensures LexLe(key(Filter(p, s)[j]), key(x)) {
      FilterElement(p, s, j);
      var i :| 0 <= i < |s| && s[i] == Filter(p, s)[j];
    }
  }

  /** Dropping elements keeps an order by key. */
  lemma {:induction false} FilterSortedBy<T>(p: T -> bool, s: seq<T>, key: T -> seq<int>)
    requires SortedBy(s, key)
    ensures SortedBy(Filter(p, s), key)
  {
    if |s| > 0 {
      var init, last := s[..|s| - 1], s[|s| - 1];
      assert SortedBy(init, key) by {
        forall i, j | 0 <= i < j < |init| ensures LexLe(key(init[i]), key(init[j])) {
          assert init[i] == s[i] && init[j] == s[j];
        }
      }
      FilterSortedBy(p, init, key);
      if p(last) {
        forall i | 0 <= i < |init| ensures LexLe(key(init[i]), key(last)) {
          assert init[i] == s[i];
        }
        FilterBelow(p, init, key, last);
        AppendSortedBy(Filter(p, init), last, key);
      }
    }
  }

  function InsertBy<T>(x: T, s: seq<T>, key: T -> seq<int>): (r: seq<T>)
    requires SortedBy(s, key)
    ensures SortedBy(r, key) && multiset(r) == multiset(s) + multiset{x}
  {
    if |s| == 0 then [x]
    else if LexLe(key(x), key(s[0])) then
      forall j | 0 <= j < |s| ensures LexLe(key(x), key(s[j])) {
        if j > 0 { LexTrans(key(x), key(s[0]), key(s[j])); }
      }
      PrependSortedBy(x, s, key);
      [x] + s
    else
      LexTotal(key(x), key(s[0]));
      var t := InsertBy(x, s[1..], key);
      assert s == [s[0]] + s[1..];
      forall j | 0 <= j < |t| ensures LexLe(key(s[0]), key(t[j])) {
        MemberOfAdded(t[j], t, s[1..], x);
      }
      PrependSortedBy(s[0], t, key);
      [s[0]] + t
  }

  /** A stable insertion sort by key: the result is ordered by key and is a
      permutation of the input. */
  function SortBy<T>(s: seq<T>, key: T -> seq<int>): (r: seq<T>)
    ensures SortedBy(r, key) && multiset(r) == multiset(s)
  {
    if |s| == 0 then []
    else
      assert s == [s[0]] + s[1..];
      InsertBy(s[0], SortBy(s[1..], key), key)
  }
}
