/**
 * Sequence helpers shared by the model: the row filters of SQL `WHERE` and of
 * JavaScript `filter`, sums, `LIMIT`, a stable insertion sort standing for
 * `ORDER BY` and `Array.prototype.sort`, and SQLite's BINARY text ordering.
 */
module Seqs {
  import opened Wrappers

  /** The elements of `s` that satisfy `p`, in their original order. */
  function Filter<T(!new)>(s: seq<T>, p: T -> bool): (r: seq<T>)
    ensures |r| <= |s|
    ensures forall x :: x in r <==> x in s && p(x)
  {
    if s == [] then [] else (if p(s[0]) then [s[0]] else []) + Filter(s[1..], p)
  }

  /** The first row adds one to the count exactly when it passes. */
  lemma FilterLengthStep<T(!new)>(s: seq<T>, p: T -> bool)
    requires s != []
    ensures |Filter(s, p)| == |Filter(s[1..], p)| + if p(s[0]) then 1 else 0
  {
  }

  lemma {:induction false} FilterAppend<T(!new)>(a: seq<T>, b: seq<T>, p: T -> bool)
    ensures Filter(a + b, p) == Filter(a, p) + Filter(b, p)
  {
    if a == [] {
      assert a + b == b;
    } else {
      assert (a + b)[1..] == a[1..] + b;
      FilterAppend(a[1..], b, p);
    }
  }

  /** Filtering with a predicate that every element satisfies keeps everything. */
  lemma {:induction false} FilterAll<T(!new)>(s: seq<T>, p: T -> bool)
    requires forall x :: x in s ==> p(x)
    ensures Filter(s, p) == s
  {
    if s != [] {
      FilterAll(s[1..], p);
    }
  }

  /** Filtering with a predicate that no element satisfies keeps nothing. */
  lemma {:induction false} FilterNone<T(!new)>(s: seq<T>, p: T -> bool)
    requires forall x :: x in s ==> !p(x)
    ensures Filter(s, p) == []
  {
    if s != [] {
      FilterNone(s[1..], p);
    }
  }

  /** A filter keeps nothing exactly when no element satisfies it. */
  lemma FilterEmpty<T(!new)>(s: seq<T>, p: T -> bool)
    ensures Filter(s, p) == [] <==> forall x :: x in s ==> !p(x)
  {
    if forall x :: x in s ==> !p(x) {
      FilterNone(s, p);
    } else {
      var x :| x in s && p(x);
      assert x in Filter(s, p);
    }
  }

  /** `rel` holds between every element and every later one. */
  ghost predicate Pairwise<T>(s: seq<T>, rel: (T, T) -> bool) {
    forall i, j :: 0 <= i < j < |s| ==> rel(s[i], s[j])
  }

  /** Dropping the first row keeps a pairwise constraint. */
  lemma TailKeepsPairwise<T>(s: seq<T>, rel: (T, T) -> bool)
    requires s != [] && Pairwise(s, rel)
    ensures Pairwise(s[1..], rel)
    ensures forall y :: y in s[1..] ==> rel(s[0], y)
  {
    var tail := s[1..];
    forall i, j | 0 <= i < j < |tail| ensures rel(tail[i], tail[j]) {
      assert tail[i] == s[i + 1] && tail[j] == s[j + 1];
    }
    forall y | y in tail ensures rel(s[0], y) {
      var k :| 0 <= k < |tail| && tail[k] == y;
      assert s[k + 1] == y;
    }
  }

  /** Prepending a row related to every existing row keeps a pairwise constraint. */
  lemma PrependKeepsPairwise<T>(x: T, s: seq<T>, rel: (T, T) -> bool)
    requires Pairwise(s, rel)
    requires forall y :: y in s ==> rel(x, y)
    ensures Pairwise([x] + s, rel)
  {
    var r := [x] + s;
    forall i, j | 0 <= i < j < |r| ensures rel(r[i], r[j]) {
      if i == 0 {
        assert r[j] == s[j - 1] && r[j] in s;
      } else {
        assert r[i] == s[i - 1] && r[j] == s[j - 1];
      }
    }
  }

  /** Removing rows keeps every pairwise constraint (uniqueness, increasing ids). */
  lemma {:induction false} FilterKeepsPairwise<T(!new)>(s: seq<T>, p: T -> bool, rel: (T, T) -> bool)
    requires Pairwise(s, rel)
    ensures Pairwise(Filter(s, p), rel)
  {
    if s != [] {
      var tail := s[1..];
      TailKeepsPairwise(s, rel);
      FilterKeepsPairwise(tail, p, rel);
      var rest := Filter(tail, p);
      forall y | y in rest ensures rel(s[0], y) {
        var k :| 0 <= k < |tail| && tail[k] == y;
        assert tail[k] in tail;
      }
      if p(s[0]) {
        assert Filter(s, p) == [s[0]] + rest;
        PrependKeepsPairwise(s[0], rest, rel);
      } else {
        assert Filter(s, p) == rest;
      }
    }
  }

  /** Appending a row related to every existing row keeps a pairwise constraint. */
  lemma AppendKeepsPairwise<T>(s: seq<T>, x: T, rel: (T, T) -> bool)
    requires Pairwise(s, rel)
    requires forall i :: 0 <= i < |s| ==> rel(s[i], x)
    ensures Pairwise(s + [x], rel)
  {
    var r := s + [x];
    forall i, j | 0 <= i < j < |r| ensures rel(r[i], r[j]) {
      if j < |s| {
        assert r[i] == s[i] && r[j] == s[j];
      } else {
        assert r[i] == s[i] && r[j] == x;
      }
    }
  }

  /** Narrowing a filter: filtering again with a stronger predicate is filtering once with it. */
  lemma {:induction false} FilterNarrow<T(!new)>(s: seq<T>, p: T -> bool, q: T -> bool)
    requires forall x :: q(x) ==> p(x)
    ensures Filter(Filter(s, p), q) == Filter(s, q)
  {
    if s != [] {
      FilterNarrow(s[1..], p, q);
      var rest := Filter(s[1..], p);
      var head := if q(s[0]) then [s[0]] else [];
      assert Filter(s, q) == head + Filter(s[1..], q);
      if p(s[0]) {
        var t := [s[0]] + rest;
        assert Filter(s, p) == t;
        assert t[0] == s[0] && t[1..] == rest;
        assert Filter(t, q) == head + Filter(rest, q);
      } else {
        assert Filter(s, p) == rest;
      }
    }
  }

  /** Two predicates that agree on every element filter alike. */
  lemma {:induction false} FilterSame<T(!new)>(s: seq<T>, p: T -> bool, q: T -> bool)
    requires forall x :: x in s ==> p(x) == q(x)
    ensures Filter(s, p) == Filter(s, q)
  {
    if s != [] {
      assert forall x :: x in s[1..] ==> x in s;
      FilterSame(s[1..], p, q);
    }
  }

  /** The elements `f` maps to a value. */
  function Defined<T, U>(f: T -> Option<U>): T -> bool {
    (x: T) => f(x).Some?
  }

  /**
   * The `Some` results of `f` over `s`, in order: an inner JOIN of each row
   * with the row its key refers to.
   */

  function Collect<T(!new), U(!new)>(s: seq<T>, f: T -> Option<U>): (r: seq<U>)
    ensures |r| == |Filter(s, Defined(f))|
    ensures forall y :: y in r <==> exists x :: x in s && f(x) == Some(y)
  {
    if s == [] then []
    else
      var rest := Collect(s[1..], f);
      assert forall x :: x in s <==> x == s[0] || x in s[1..];
      (match f(s[0]) case Some(y) => [y] case None => []) + rest
  }

  /** Elements mapped to distinct values give distinct results. */
  lemma {:induction false} CollectNoDup<T(!new), U(!new)>(s: seq<T>, f: T -> Option<U>)
    requires forall i, j :: 0 <= i < j < |s| && f(s[i]).Some? && f(s[j]).Some? ==> f(s[i]) != f(s[j])
    ensures NoDup(Collect(s, f))
  {
    if s != [] {
      var tail := s[1..];
      forall i, j | 0 <= i < j < |tail| && f(tail[i]).Some? && f(tail[j]).Some? ensures f(tail[i]) != f(tail[j]) {
        assert tail[i] == s[i + 1] && tail[j] == s[j + 1];
      }
      CollectNoDup(tail, f);
      if f(s[0]).Some? {
        CollectHeadFresh(s, f);
        assert Collect(s, f) == [f(s[0]).value] + Collect(tail, f);
        PrependNoDup(f(s[0]).value, Collect(tail, f));
      } else {
        assert Collect(s, f) == Collect(tail, f);
      }
    }
  }

  /** The value of the first element is not among the values of the rest. */
  lemma CollectHeadFresh<T(!new), U(!new)>(s: seq<T>, f: T -> Option<U>)
    requires s != [] && f(s[0]).Some?
    requires forall i, j :: 0 <= i < j < |s| && f(s[i]).Some? && f(s[j]).Some? ==> f(s[i]) != f(s[j])
    ensures f(s[0]).value !in Collect(s[1..], f)
  {
    var tail := s[1..];
    forall z | z in Collect(tail, f) ensures z != f(s[0]).value {
      var x :| x in tail && f(x) == Some(z);
      var k :| 0 <= k < |tail| && tail[k] == x;
      assert s[k + 1] == x;
    }
  }

  lemma PrependNoDup<T>(y: T, s: seq<T>)
    requires NoDup(s) && y !in s
    ensures NoDup([y] + s)
  {
    var r := [y] + s;
    forall i, j | 0 <= i < j < |r| ensures r[i] != r[j] {
      if i == 0 {
        assert r[j] == s[j - 1] && r[j] in s;
      } else {
        assert r[i] == s[i - 1] && r[j] == s[j - 1];
      }
    }
  }

  /** The sum of a sequence of reals (0 for the empty sequence). */
  function Sum(xs: seq<real>): real {
    if xs == [] then 0.0 else xs[0] + Sum(xs[1..])
  }

  lemma {:induction false} SumAppend(a: seq<real>, b: seq<real>)
    ensures Sum(a + b) == Sum(a) + Sum(b)
  {
    if a == [] {
      assert a + b == b;
    } else {
      assert (a + b)[0] == a[0] && (a + b)[1..] == a[1..] + b;
      SumAppend(a[1..], b);
    }
  }

  lemma MulSucc(n: real, x: real)
    ensures (n + 1.0) * x == n * x + x
  {
  }

  /** Every term of `xs` is at most `hi`, so the sum is at most `|xs| * hi`. */
  lemma {:induction false} SumAtMost(xs: seq<real>, hi: real)
    requires forall x :: x in xs ==> x <= hi
    ensures Sum(xs) <= |xs| as real * hi
  {
    if xs != [] {
      var tail := xs[1..];
      assert forall x :: x in tail ==> x in xs;
      SumAtMost(tail, hi);
      assert xs[0] in xs && Sum(xs) == xs[0] + Sum(tail);
      MulSucc(|tail| as real, hi);
    }
  }

  /** Every term of `xs` is at least `lo`, so the sum is at least `|xs| * lo`. */
  lemma {:induction false} SumAtLeast(xs: seq<real>, lo: real)
    requires forall x :: x in xs ==> lo <= x
    ensures |xs| as real * lo <= Sum(xs)
  {
    if xs != [] {
      var tail := xs[1..];
      assert forall x :: x in tail ==> x in xs;
      SumAtLeast(tail, lo);
      assert xs[0] in xs && Sum(xs) == xs[0] + Sum(tail);
      MulSucc(|tail| as real, lo);
    }
  }

  /** Every term of `xs` is `c`, so the sum is `|xs| * c`. */
  lemma {:induction false} SumConstant(xs: seq<real>, c: real)
    requires forall x :: x in xs ==> x == c
    ensures Sum(xs) == |xs| as real * c
  {
    if xs != [] {
      var tail := xs[1..];
      assert forall x :: x in tail ==> x in xs;
      SumConstant(tail, c);
      assert xs[0] in xs && Sum(xs) == xs[0] + Sum(tail);
      MulSucc(|tail| as real, c);
    }
  }

  /** `f` applied to every element, in order. */
  function Map<T, U>(s: seq<T>, f: T -> U): (r: seq<U>)
    ensures |r| == |s|
    ensures forall i :: 0 <= i < |s| ==> r[i] == f(s[i])
    ensures forall y :: y in r ==> exists x :: x in s && y == f(x)
    ensures forall x :: x in s ==> f(x) in r
  {
    seq(|s|, i requires 0 <= i < |s| => f(s[i]))
  }

  lemma MapAppend<T, U>(a: seq<T>, b: seq<T>, f: T -> U)
    ensures Map(a + b, f) == Map(a, f) + Map(b, f)
  {
    var l := Map(a + b, f);
    var r := Map(a, f) + Map(b, f);
    assert |l| == |r|;
    forall i | 0 <= i < |l| ensures l[i] == r[i] {
      if i < |a| {
        assert (a + b)[i] == a[i];
      } else {
        assert (a + b)[i] == b[i - |a|];
      }
    }
  }

  /** Mapping both sides of a permutation gives a permutation. */
  lemma {:induction false} MapPermutation<T, U>(a: seq<T>, b: seq<T>, f: T -> U)
    requires multiset(a) == multiset(b)
    ensures multiset(Map(a, f)) == multiset(Map(b, f))
    decreases |a|
  {
    if a == [] {
      assert |b| == |multiset(b)| == 0;
    } else {
      var x := a[0];
      var tail := a[1..];
      assert a == [x] + tail;
      assert x in multiset(b);
      var k :| 0 <= k < |b| && b[k] == x;
      var rest := b[..k] + b[k + 1..];
      RemoveAtMultiset(b, k);
      assert multiset(tail) == multiset(rest);
      MapPermutation(tail, rest, f);
      MapRemoveAt(b, k, f);
      MapHead(a, f);
    }
  }

  /** The values of a non-empty sequence: the first one and those of the rest. */
  lemma MapHead<T, U>(a: seq<T>, f: T -> U)
    requires a != []
    ensures multiset(Map(a, f)) == multiset{f(a[0])} + multiset(Map(a[1..], f))
  {
    assert Map(a, f) == [f(a[0])] + Map(a[1..], f);
  }

  /** Taking out the element at `k` takes one copy of it out of the multiset. */
  lemma RemoveAtMultiset<T>(b: seq<T>, k: int)
    requires 0 <= k < |b|
    ensures multiset(b[..k] + b[k + 1..]) == multiset(b) - multiset{b[k]}
  {
    assert b == b[..k] + [b[k]] + b[k + 1..];
  }

  /** The values of `b` are those of `b` without position `k`, plus the value at `k`. */
  lemma MapRemoveAt<T, U>(b: seq<T>, k: int, f: T -> U)
    requires 0 <= k < |b|
    ensures multiset(Map(b, f)) == multiset(Map(b[..k] + b[k + 1..], f)) + multiset{f(b[k])}
  {
    var m := Map(b, f);
    var rest := b[..k] + b[k + 1..];
    var r := Map(rest, f);
    forall i | 0 <= i < |r| ensures r[i] == (m[..k] + m[k + 1..])[i] {
      if i < k {
        assert rest[i] == b[i];
      } else {
        assert rest[i] == b[i + 1];
      }
    }
    assert r == m[..k] + m[k + 1..];
    RemoveAtMultiset(m, k);
  }

  /** SQL `LIMIT n`: the first `n` rows; SQLite reads a negative limit as "no limit". */
  function Limit<T>(s: seq<T>, n: int): (r: seq<T>)
    ensures n >= 0 ==> |r| == if n < |s| then n else |s|
    ensures n < 0 ==> r == s
    ensures r <= s
  {
    if 0 <= n < |s| then s[..n] else s
  }

  /** `le` is total and transitive: an ordering `ORDER BY` or `sort` can use. */
  ghost predicate TotalPreorder<T(!new)>(le: (T, T) -> bool) {
    && (forall a, b :: le(a, b) || le(b, a))
    && (forall a, b, c :: le(a, b) && le(b, c) ==> le(a, c))
  }

  /** Places `x` in front of the first element it may precede. */
  function Insert<T>(x: T, s: seq<T>, le: (T, T) -> bool): (r: seq<T>)
    ensures multiset(r) == multiset(s) + multiset{x}
  {
    if s == [] then [x]
    else if le(x, s[0]) then [x] + s
    else
      assert s == [s[0]] + s[1..];
      [s[0]] + Insert(x, s[1..], le)
  }

  lemma {:induction false} InsertSorted<T(!new)>(x: T, s: seq<T>, le: (T, T) -> bool)
    requires TotalPreorder(le) && Pairwise(s, le)
    ensures Pairwise(Insert(x, s, le), le)
  {
    if s == [] {
    } else {
      var tail := s[1..];
      TailKeepsPairwise(s, le);
      assert s == [s[0]] + tail;
      if le(x, s[0]) {
        forall y | y in s ensures le(x, y) {
          if y != s[0] {
            assert y in tail && le(s[0], y);
          }
        }
        PrependKeepsPairwise(x, s, le);
      } else {
        InsertSorted(x, tail, le);
        var rest := Insert(x, tail, le);
        forall y | y in rest ensures le(s[0], y) {
          assert y in multiset(rest);
          if y != x {
            assert y in multiset(tail);
          }
        }
        PrependKeepsPairwise(s[0], rest, le);
      }
    }
  }

  /** Sequences with the same multiset have the same elements. */
  lemma SameMembers<T>(a: seq<T>, b: seq<T>)
    requires multiset(a) == multiset(b)
    ensures forall x :: x in a <==> x in b
  {
    assert forall x :: x in a <==> x in multiset(a);
    assert forall x :: x in b <==> x in multiset(b);
  }

  /**
   * A stable insertion sort: the result is a permutation of `s` ordered by
   * `le`, and elements that compare equal keep their input order.
   */
  function SortBy<T(!new)>(s: seq<T>, le: (T, T) -> bool): (r: seq<T>)
    requires TotalPreorder(le)
    ensures multiset(r) == multiset(s)
    ensures |r| == |s|
    ensures forall x :: x in r <==> x in s
    ensures Pairwise(r, le)
  {
    if s == [] then []
    else
      var rest := SortBy(s[1..], le);
      InsertSorted(s[0], rest, le);
      assert s == [s[0]] + s[1..];
      var r := Insert(s[0], rest, le);
      SameMembers(r, s);
      r
  }

  /** The first `n` of a sorted sequence come `le`-before every element they leave out. */
  /** The first `n` of a sorted copy repeat no element more often than the original holds it. */
  lemma TopSubMultiset<T(!new)>(s: seq<T>, le: (T, T) -> bool, n: int)
    requires TotalPreorder(le)
    ensures multiset(Limit(SortBy(s, le), n)) <= multiset(s)
  {
    var sorted := SortBy(s, le);
    var top := Limit(sorted, n);
    assert sorted == top + sorted[|top|..];
  }

  lemma TopComesFirst<T(!new)>(s: seq<T>, le: (T, T) -> bool, n: int, x: T)
    requires TotalPreorder(le)
    requires x in s && x !in Limit(SortBy(s, le), n)
    ensures forall y :: y in Limit(SortBy(s, le), n) ==> le(y, x)
  {
    var sorted := SortBy(s, le);
    var top := Limit(sorted, n);
    var k :| 0 <= k < |sorted| && sorted[k] == x;
    assert forall i :: 0 <= i < |top| ==> sorted[i] == top[i] && top[i] in top;
    assert k >= |top|;
    forall y | y in top ensures le(y, x) {
      var i :| 0 <= i < |top| && top[i] == y;
      assert le(sorted[i], sorted[k]);
    }
  }

  /** SQLite's BINARY collation on text: lexicographic by character code. */
  predicate StrLe(a: string, b: string) {
    |a| == 0 || (|b| > 0 && (a[0] < b[0] || (a[0] == b[0] && StrLe(a[1..], b[1..]))))
  }

  lemma {:induction false} StrLeTotal(a: string, b: string)
    ensures StrLe(a, b) || StrLe(b, a)
  {
    if |a| > 0 && |b| > 0 && a[0] == b[0] {
      StrLeTotal(a[1..], b[1..]);
    }
  }

  lemma {:induction false} StrLeTrans(a: string, b: string, c: string)
    requires StrLe(a, b) && StrLe(b, c)
    ensures StrLe(a, c)
  {
    if |a| > 0 && |b| > 0 && |c| > 0 && a[0] == b[0] == c[0] {
      StrLeTrans(a[1..], b[1..], c[1..]);
    }
  }

  lemma {:induction false} StrLeAntisymmetric(a: string, b: string)
    requires StrLe(a, b) && StrLe(b, a)
    ensures a == b
  {
    if |a| > 0 && |b| > 0 {
      StrLeAntisymmetric(a[1..], b[1..]);
      assert a == [a[0]] + a[1..] && b == [b[0]] + b[1..];
    }
  }

  /** Ordering rows by a text key with SQLite's collation is a total preorder. */
  lemma StrLeByKey<T(!new)>(key: T -> string, le: (T, T) -> bool)
    requires forall a, b :: le(a, b) == StrLe(key(a), key(b))
    ensures TotalPreorder(le)
  {
    forall a, b ensures le(a, b) || le(b, a) {
      StrLeTotal(key(a), key(b));
    }
    forall a, b, c | le(a, b) && le(b, c) ensures le(a, c) {
      StrLeTrans(key(a), key(b), key(c));
    }
  }

  /** No element occurs twice. */
  ghost predicate NoDup<T>(s: seq<T>) {
    forall i, j :: 0 <= i < j < |s| ==> s[i] != s[j]
  }

  /** Each value of `s` once, as SQL `GROUP BY` yields one group per key. */
  function Distinct<T(==,!new)>(s: seq<T>): (r: seq<T>)
    ensures forall x :: x in r <==> x in s
    ensures NoDup(r)
  {
    if s == [] then []
    else
      var rest := Distinct(s[1..]);
      assert forall x :: x in s <==> x == s[0] || x in s[1..];
      if s[0] in rest then rest
      else
        var r := [s[0]] + rest;
        assert forall i :: 0 < i < |r| ==> r[i] == rest[i - 1];
        r
  }

  lemma {:induction false} NoDupCountsOnce<T>(s: seq<T>)
    requires NoDup(s)
    ensures forall x :: multiset(s)[x] <= 1
  {
    if s != [] {
      var tail := s[1..];
      assert NoDup(tail) by {
        forall i, j | 0 <= i < j < |tail| ensures tail[i] != tail[j] {
          assert tail[i] == s[i + 1] && tail[j] == s[j + 1];
        }
      }
      NoDupCountsOnce(tail);
      assert s == [s[0]] + tail;
      assert s[0] !in tail by {
        forall k | 0 <= k < |tail| ensures tail[k] != s[0] {
          assert tail[k] == s[k + 1];
        }
      }
    }
  }

  lemma RepeatCountsTwice<T>(s: seq<T>, i: int, j: int)
    requires 0 <= i < j < |s|
    ensures s[i] == s[j] ==> multiset(s)[s[j]] >= 2
  {
    var x := s[j];
    assert s == s[..j] + [x] + s[j + 1..];
    assert s[i] == s[..j][i];
    assert multiset(s)[x] == multiset(s[..j])[x] + 1 + multiset(s[j + 1..])[x];
  }

  /** Drawing elements from a sequence without repetitions, at most as often as it holds them, repeats none. */
  lemma SubMultisetNoDup<T>(a: seq<T>, b: seq<T>)
    requires multiset(a) <= multiset(b) && NoDup(b)
    ensures NoDup(a)
  {
    NoDupCountsOnce(b);
    forall i, j | 0 <= i < j < |a| ensures a[i] != a[j] {
      RepeatCountsTwice(a, i, j);
    }
  }

  /** Drawing from a sequence whose keys are all different keeps the keys different. */
  lemma SubMultisetKeysDistinct<T, K>(a: seq<T>, b: seq<T>, key: T -> K)
    requires multiset(a) <= multiset(b)
    requires forall i, j :: 0 <= i < j < |b| ==> key(b[i]) != key(b[j])
    ensures forall i, j :: 0 <= i < j < |a| ==> key(a[i]) != key(a[j])
  {
    assert NoDup(b);
    SubMultisetNoDup(a, b);
    forall i, j | 0 <= i < j < |a| ensures key(a[i]) != key(a[j]) {
      assert a[i] in multiset(a) && a[j] in multiset(a);
      var x :| 0 <= x < |b| && b[x] == a[i];
      var y :| 0 <= y < |b| && b[y] == a[j];
      assert x != y;
      if x < y {
        assert key(b[x]) != key(b[y]);
      } else {
        assert key(b[y]) != key(b[x]);
      }
    }
  }

  /** A permutation of a sequence without repetitions has none either. */
  lemma NoDupPermutation<T>(a: seq<T>, b: seq<T>)
    requires multiset(a) == multiset(b) && NoDup(a)
    ensures NoDup(b)
  {
    NoDupCountsOnce(a);
    forall i, j | 0 <= i < j < |b| ensures b[i] != b[j] {
      RepeatCountsTwice(b, i, j);
    }
  }

  /** The sum of `w` over the elements of `s`: SQL `SUM` of a NOT NULL column. */
  function SumOf<T>(s: seq<T>, w: T -> real): real {
    if s == [] then 0.0 else w(s[0]) + SumOf(s[1..], w)
  }

  /** The row filter `key(x) = k` of one group. */
  function KeyIs<T, K(==)>(key: T -> K, k: K): T -> bool {
    (x: T) => key(x) == k
  }

  /** The sums of `w` over the groups of `s` whose keys are `ks`, added up. */
  function GroupTotal<T(!new), K(==)>(s: seq<T>, key: T -> K, ks: seq<K>, w: T -> real): real {
    if ks == [] then 0.0 else SumOf(Filter(s, KeyIs(key, ks[0])), w) + GroupTotal(s, key, ks[1..], w)
  }

  lemma {:induction false} GroupTotalEmpty<T(!new), K>(key: T -> K, ks: seq<K>, w: T -> real)
    ensures GroupTotal([], key, ks, w) == 0.0
  {
    if ks != [] {
      GroupTotalEmpty(key, ks[1..], w);
    }
  }

  lemma {:induction false} GroupTotalCons<T(!new), K>(x: T, rest: seq<T>, key: T -> K, ks: seq<K>, w: T -> real)
    requires NoDup(ks)
    ensures GroupTotal([x] + rest, key, ks, w) == (if key(x) in ks then w(x) else 0.0) + GroupTotal(rest, key, ks, w)
  {
    if ks != [] {
      var tail := ks[1..];
      assert NoDup(tail) by {
        forall i, j | 0 <= i < j < |tail| ensures tail[i] != tail[j] {
          assert tail[i] == ks[i + 1] && tail[j] == ks[j + 1];
        }
      }
      assert ks[0] !in tail by {
        forall k | 0 <= k < |tail| ensures tail[k] != ks[0] {
          assert tail[k] == ks[k + 1];
        }
      }
      GroupTotalCons(x, rest, key, tail, w);
      var s := [x] + rest;
      var p := KeyIs(key, ks[0]);
      assert s[0] == x && s[1..] == rest;
      var f := Filter(rest, p);
      if p(x) {
        assert Filter(s, p) == [x] + f;
        assert ([x] + f)[0] == x && ([x] + f)[1..] == f;
      } else {
        assert Filter(s, p) == f;
      }
      assert key(x) in ks <==> key(x) == ks[0] || key(x) in tail;
    }
  }

  /**
   * Summing per group and adding up the groups gives the sum over all rows,
   * when every row's key is one of the (distinct) group keys.
   */
  lemma {:induction false} GroupTotalPartition<T(!new), K>(s: seq<T>, key: T -> K, ks: seq<K>, w: T -> real)
    requires NoDup(ks)
    requires forall x :: x in s ==> key(x) in ks
    ensures GroupTotal(s, key, ks, w) == SumOf(s, w)
  {
    if s == [] {
      GroupTotalEmpty(key, ks, w);
    } else {
      assert s == [s[0]] + s[1..];
      GroupTotalCons(s[0], s[1..], key, ks, w);
      GroupTotalPartition(s[1..], key, ks, w);
    }
  }

  function One<T>(x: T): real { 1.0 }

  /** Summing one per row counts the rows. */
  lemma {:induction false} SumOfOne<T>(s: seq<T>)
    ensures SumOf(s, One) == |s| as real
  {
    if s != [] {
      SumOfOne(s[1..]);
    }
  }

  /** SQLite's BINARY collation is an ordering `ORDER BY` can use. */
  lemma StrLeOrder()
    ensures TotalPreorder(StrLe)
  {
    StrLeByKey((s: string) => s, StrLe);
  }
}
