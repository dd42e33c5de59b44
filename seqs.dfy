/** The list combinators the store and the pages are written with:
    `filter`, `find`, `reduce` (sum) and a `sort` by a numeric key. */
module Seqs {
  import opened Wrappers

  /** `s.filter(f)`: the elements satisfying `f`, in their original order. */
  function Filter<T(!new)>(f: T -> bool, s: seq<T>): (r: seq<T>)
    ensures |r| <= |s|
    ensures forall x :: x in r <==> x in s && f(x)
    decreases |s|
  {
    if s == [] then []
    else
      var init := Filter(f, s[..|s| - 1]);
      assert s == s[..|s| - 1] + [s[|s| - 1]];
      if f(s[|s| - 1]) then init + [s[|s| - 1]] else init
  }

  /** Filtering distributes over concatenation: the kept elements stay in
      their original relative order. */
  lemma {:induction false} FilterAppend<T(!new)>(f: T -> bool, s: seq<T>, t: seq<T>)
    ensures Filter(f, s + t) == Filter(f, s) + Filter(f, t)
    decreases |t|
  {
    if t == [] {
      assert s + t == s;
    } else {
      var t' := t[..|t| - 1];
      assert (s + t)[..|s + t| - 1] == s + t';
      assert (s + t)[|s + t| - 1] == t[|t| - 1];
      FilterAppend(f, s, t');
    }
  }

  /** `filter` keeps order: an element kept from before the first occurrence
      of `s[i]` lands before every copy of `s[i]` in the result. */
  lemma FilterKeepsOrder<T(!new)>(f: T -> bool, s: seq<T>, i: nat, j: nat, k: nat)
    requires j < i < |s| && f(s[j])
    requires forall m :: 0 <= m < i ==> s[m] != s[i]
    requires k < |Filter(f, s)| && Filter(f, s)[k] == s[i]
    ensures exists m :: 0 <= m < k && Filter(f, s)[m] == s[j]
  {
    assert s[..i] + s[i..] == s;
    FilterAppend(f, s[..i], s[i..]);
    var pre := Filter(f, s[..i]);
    assert s[i] !in s[..i];
    assert s[i] !in pre;
    assert k >= |pre|;
    assert s[..i][j] == s[j];
    var m :| 0 <= m < |pre| && pre[m] == s[j];
    assert Filter(f, s)[m] == s[j];
  }

  /** Filtering a list with one more element at the end. */
  lemma FilterSnoc<T(!new)>(f: T -> bool, s: seq<T>, x: T)
    ensures Filter(f, s + [x]) == Filter(f, s) + (if f(x) then [x] else [])
  {
    assert (s + [x])[..|s|] == s;
  }

  /** Two complementary filters split a list: their lengths add up. */
  lemma {:induction false} FilterPartition<T(!new)>(f: T -> bool, g: T -> bool, s: seq<T>)
    requires forall x :: x in s ==> f(x) != g(x)
    ensures |Filter(f, s)| + |Filter(g, s)| == |s|
    decreases |s|
  {
    if s != [] {
      var init := s[..|s| - 1];
      assert s == init + [s[|s| - 1]];
      assert forall x :: x in init ==> x in s;
      FilterPartition(f, g, init);
      FilterSnoc(f, init, s[|s| - 1]);
      FilterSnoc(g, init, s[|s| - 1]);
    }
  }

  /** A filter every element passes keeps the whole list. */
  lemma {:induction false} FilterKeepsAll<T(!new)>(f: T -> bool, s: seq<T>)
    requires forall x :: x in s ==> f(x)
    ensures Filter(f, s) == s
    decreases |s|
  {
    if s != [] {
      assert s == s[..|s| - 1] + [s[|s| - 1]];
      FilterKeepsAll(f, s[..|s| - 1]);
    }
  }

  /** A filter no element passes keeps nothing. */
  lemma {:induction false} FilterKeepsNone<T(!new)>(f: T -> bool, s: seq<T>)
    requires forall x :: x in s ==> !f(x)
    ensures Filter(f, s) == []
    decreases |s|
  {
    if s != [] {
      assert s == s[..|s| - 1] + [s[|s| - 1]];
      FilterKeepsNone(f, s[..|s| - 1]);
    }
  }

  /** `s.find(f)`, as the index of the first element satisfying `f`. */
  function FindIndex<T>(f: T -> bool, s: seq<T>): (r: Option<nat>)
    ensures r.None? <==> forall j :: 0 <= j < |s| ==> !f(s[j])
    ensures r.Some? ==> r.value < |s| && f(s[r.value])
    ensures r.Some? ==> forall j :: 0 <= j < r.value ==> !f(s[j])
    decreases |s|
  {
    if s == [] then None
    else if f(s[0]) then Some(0)
    else
      var rest := FindIndex(f, s[1..]);
      assert forall j :: 1 <= j < |s| ==> s[j] == s[1..][j - 1];
      if rest.None? then None else Some(rest.value + 1)
  }

  /** `s.reduce((sum, x) => sum + f(x), 0)`. */
  function SumOf<T>(f: T -> int, s: seq<T>): int
    decreases |s|
  {
    if s == [] then 0 else SumOf(f, s[..|s| - 1]) + f(s[|s| - 1])
  }

  lemma {:induction false} SumOfAppend<T>(f: T -> int, s: seq<T>, t: seq<T>)
    ensures SumOf(f, s + t) == SumOf(f, s) + SumOf(f, t)
    decreases |t|
  {
    if t == [] {
      assert s + t == s;
    } else {
      var t' := t[..|t| - 1];
      assert (s + t)[..|s + t| - 1] == s + t';
      assert (s + t)[|s + t| - 1] == t[|t| - 1];
      SumOfAppend(f, s, t');
    }
  }

  /** A sum of non-negative terms is non-negative. */
  lemma {:induction false} SumOfNonNegative<T(!new)>(f: T -> int, s: seq<T>)
    requires forall x :: x in s ==> f(x) >= 0
    ensures SumOf(f, s) >= 0
    decreases |s|
  {
    if s != [] {
      assert forall x :: x in s[..|s| - 1] ==> x in s;
      SumOfNonNegative(f, s[..|s| - 1]);
    }
  }

  predicate SortedBy<T>(key: T -> int, s: seq<T>)
  {
    forall i, j :: 0 <= i < j < |s| ==> key(s[i]) <= key(s[j])
  }

  /** Inserts `x` before the first element whose key is not smaller, so that
      equal keys keep their original order. */
  function InsertBy<T(!new)>(key: T -> int, x: T, s: seq<T>): (r: seq<T>)
    requires SortedBy(key, s)
    ensures SortedBy(key, r)
    ensures multiset(r) == multiset(s) + multiset{x}
    ensures forall y :: y in r ==> y == x || y in s
    decreases |s|
  {
    if s == [] || key(x) <= key(s[0]) then
      SortedCons(key, x, s);
      [x] + s
    else
      var rest := InsertBy(key, x, s[1..]);
      assert s == [s[0]] + s[1..];
      SortedCons(key, s[0], rest);
      [s[0]] + rest
  }

  /** Putting an element no larger than any other in front keeps a list sorted. */
  lemma SortedCons<T(!new)>(key: T -> int, a: T, s: seq<T>)
    requires SortedBy(key, s)
    requires s != [] ==> key(a) <= key(s[0])
    ensures SortedBy(key, [a] + s)
  {
    var r := [a] + s;
    forall i, j | 0 <= i < j < |r| ensures key(r[i]) <= key(r[j]) {
      if i > 0 {
        assert r[i] == s[i - 1] && r[j] == s[j - 1];
      } else {
        assert r[j] == s[j - 1];
        assert key(s[0]) <= key(s[j - 1]);
      }
    }
  }

  /** `s.sort((a, b) => key(a) - key(b))`, as an insertion sort. Only the
      result's order by key and its elements are stated; the relative order
      of equal keys is not. */
  function SortBy<T(!new)>(key: T -> int, s: seq<T>): (r: seq<T>)
    ensures SortedBy(key, r)
    ensures multiset(r) == multiset(s)
    ensures |r| == |s|
    decreases |s|
  {
    if s == [] then []
    else
      assert s == [s[0]] + s[1..];
      InsertBy(key, s[0], SortBy(key, s[1..]))
  }
}
