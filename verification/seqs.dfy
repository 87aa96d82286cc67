/** Sequence helpers with JavaScript's array meaning: `find`/`findIndex`,
    `slice(0, n)`, and a stable `sort` by an integer key. */
module Seqs {
  import opened Wrappers

  /** `s.findIndex(p)`: the first index whose element satisfies `p`, or `None` (-1). */
  function FirstIndex<T>(s: seq<T>, p: T -> bool): (r: Option<nat>)
    ensures r.None? <==> forall i :: 0 <= i < |s| ==> !p(s[i])
    ensures r.Some? ==> r.value < |s| && p(s[r.value])
    ensures r.Some? ==> forall i :: 0 <= i < r.value ==> !p(s[i])
    decreases |s|
  {
    if |s| == 0 then None
    else if p(s[0]) then Some(0)
    else
      match FirstIndex(s[1..], p)
      case None => None
      case Some(k) => Some(k + 1)
  }

  /** `s.slice(0, n)`: the first `n` elements, or all of them when fewer. */
  function Take<T>(s: seq<T>, n: nat): (r: seq<T>)
    ensures |r| == if n <= |s| then n else |s|
    ensures forall i :: 0 <= i < |r| ==> r[i] == s[i]
  {
    if n <= |s| then s[..n] else s
  }

  /** `s.filter(p)`: the elements satisfying `p`, in their original order. */
  function Filter<T(!new)>(s: seq<T>, p: T -> bool): (r: seq<T>)
    ensures |r| <= |s|
    ensures forall x :: x in r <==> x in s && p(x)
    ensures forall i :: 0 <= i < |r| ==> p(r[i])
    decreases |s|
  {
    if |s| == 0 then []
    else if p(s[0]) then [s[0]] + Filter(s[1..], p)
    else Filter(s[1..], p)
  }

  /** Two tests that agree everywhere filter alike. */
  lemma {:induction false} FilterSameTest<T(!new)>(s: seq<T>, p: T -> bool, q: T -> bool)
    requires forall x :: p(x) == q(x)
    ensures Filter(s, p) == Filter(s, q)
    decreases |s|
  {
    if |s| > 0 {
      FilterSameTest(s[1..], p, q);
    }
  }

  /** Filtering by `p` and then by `q` is filtering by a test that holds
      where both do. */
  lemma {:induction false} FilterFilter<T(!new)>(s: seq<T>, p: T -> bool, q: T -> bool, both: T -> bool)
    requires forall x :: both(x) == (p(x) && q(x))
    ensures Filter(Filter(s, p), q) == Filter(s, both)
    decreases |s|
  {
    if |s| > 0 {
      FilterFilter(s[1..], p, q, both);
      if p(s[0]) {
        assert Filter(s, p) == [s[0]] + Filter(s[1..], p);
        assert Filter(s, p)[1..] == Filter(s[1..], p);
      }
    }
  }

  /** `s.reduce((sum, x) => sum + f(x), 0)`. */
  function SumBy<T>(s: seq<T>, f: T -> nat): nat
    decreases |s|
  {
    if |s| == 0 then 0 else f(s[0]) + SumBy(s[1..], f)
  }

  lemma {:induction false} SumByAppend<T>(a: seq<T>, b: seq<T>, f: T -> nat)
    ensures SumBy(a + b, f) == SumBy(a, f) + SumBy(b, f)
    decreases |a|
  {
    if |a| > 0 {
      SumByAppend(a[1..], b, f);
      assert (a + b)[1..] == a[1..] + b;
    } else {
      assert a + b == b;
    }
  }

  /** Splitting a sum by a predicate: the part that passes and the part that fails add up to the whole. */
  lemma {:induction false} SumByFilterSplit<T(!new)>(s: seq<T>, f: T -> nat, p: T -> bool, q: T -> bool)
    requires forall x :: q(x) <==> !p(x)
    ensures SumBy(Filter(s, p), f) + SumBy(Filter(s, q), f) == SumBy(s, f)
    decreases |s|
  {
    if |s| > 0 {
      SumByFilterSplit(s[1..], f, p, q);
    }
  }

  /** A sum over a stricter filter is no larger. */
  lemma {:induction false} SumByFilterMono<T(!new)>(s: seq<T>, f: T -> nat, p: T -> bool, q: T -> bool)
    requires forall x :: p(x) ==> q(x)
    ensures SumBy(Filter(s, p), f) <= SumBy(Filter(s, q), f)
    decreases |s|
  {
    if |s| > 0 {
      SumByFilterMono(s[1..], f, p, q);
    }
  }

  /** Appending an element the filter rejects does not change the filtered sequence. */
  lemma {:induction false} FilterAppendRejected<T(!new)>(s: seq<T>, x: T, p: T -> bool)
    requires !p(x)
    ensures Filter(s + [x], p) == Filter(s, p)
    decreases |s|
  {
    if |s| == 0 {
      assert s + [x] == [x];
      assert [x][1..] == [];
    } else {
      FilterAppendRejected(s[1..], x, p);
      assert (s + [x])[1..] == s[1..] + [x];
    }
  }

  /** Appending an element the test accepts appends it to the result. */
  lemma {:induction false} FilterAppendAccepted<T(!new)>(s: seq<T>, x: T, p: T -> bool)
    requires p(x)
    ensures Filter(s + [x], p) == Filter(s, p) + [x]
    decreases |s|
  {
    var t := s + [x];
    if |s| == 0 {
      assert t == [x];
      assert t[1..] == [];
    } else {
      FilterAppendAccepted(s[1..], x, p);
      assert t[0] == s[0];
      assert t[1..] == s[1..] + [x];
      if p(s[0]) {
        assert Filter(t, p) == [s[0]] + (Filter(s[1..], p) + [x]);
        assert [s[0]] + (Filter(s[1..], p) + [x]) == ([s[0]] + Filter(s[1..], p)) + [x];
      } else {
        assert Filter(t, p) == Filter(s[1..], p) + [x];
      }
    }
  }

  /** Every later element's key is at least every earlier one's. */
  predicate SortedBy<T>(s: seq<T>, key: T -> int) {
    forall i, j :: 0 <= i < j < |s| ==> key(s[i]) <= key(s[j])
  }

  /** Inserts `x` before the first element whose key is not smaller, so
      that among equal keys `x` comes first. */
  function Insert<T>(x: T, s: seq<T>, key: T -> int): (r: seq<T>)
    ensures |r| == |s| + 1
    decreases |s|
  {
    if |s| == 0 then [x]
    else if key(x) <= key(s[0]) then [x] + s
    else [s[0]] + Insert(x, s[1..], key)
  }

  /** Insertion adds exactly `x` to the elements. */
  lemma {:induction false} InsertMultiset<T>(x: T, s: seq<T>, key: T -> int)
    ensures multiset(Insert(x, s, key)) == multiset(s) + multiset{x}
    decreases |s|
  {
    if |s| > 0 && key(x) > key(s[0]) {
      InsertMultiset(x, s[1..], key);
      assert s == [s[0]] + s[1..];
    }
  }

  /** A lower bound of `x` and of every element of `s` bounds the insertion. */
  lemma {:induction false} InsertBounded<T>(x: T, s: seq<T>, key: T -> int, b: int)
    requires b <= key(x)
    requires forall i :: 0 <= i < |s| ==> b <= key(s[i])
    ensures forall k :: 0 <= k < |s| + 1 ==> b <= key(Insert(x, s, key)[k])
    decreases |s|
  {
    if |s| > 0 && key(x) > key(s[0]) {
      InsertBounded(x, s[1..], key, b);
    }
  }

  /** Inserting into a sorted sequence keeps it sorted. */
  lemma {:induction false} InsertSorted<T>(x: T, s: seq<T>, key: T -> int)
    requires SortedBy(s, key)
    ensures SortedBy(Insert(x, s, key), key)
    decreases |s|
  {
    if |s| > 0 && key(x) > key(s[0]) {
      InsertSorted(x, s[1..], key);
      InsertBounded(x, s[1..], key, key(s[0]));
    }
  }

  /** Stable insertion sort, ascending by `key`; a permutation of `s`. */
  function SortByKey<T>(s: seq<T>, key: T -> int): (r: seq<T>)
    ensures SortedBy(r, key)
    ensures multiset(r) == multiset(s)
    ensures |r| == |s|
    decreases |s|
  {
    if |s| == 0 then []
    else
      var rest := SortByKey(s[1..], key);
      InsertStep(s[0], rest, s[1..], key);
      assert [s[0]] + s[1..] == s;
      Insert(s[0], rest, key)
  }

  /** One step of the sort: inserting `x` into a sorted permutation of
      `tail` gives a sorted permutation of `[x] + tail`. */
  lemma InsertStep<T>(x: T, rest: seq<T>, tail: seq<T>, key: T -> int)
    requires SortedBy(rest, key) && multiset(rest) == multiset(tail)
    ensures SortedBy(Insert(x, rest, key), key)
    ensures multiset(Insert(x, rest, key)) == multiset([x] + tail)
  {
    InsertSorted(x, rest, key);
    InsertMultiset(x, rest, key);
  }

  /** Sorting keeps exactly the elements it was given. */
  lemma SortByKeyMembers<T>(s: seq<T>, key: T -> int)
    ensures forall i :: 0 <= i < |SortByKey(s, key)| ==> SortByKey(s, key)[i] in s
  {
    var r := SortByKey(s, key);
    forall i | 0 <= i < |r| ensures r[i] in s {
      assert r[i] in multiset(r);
    }
  }

  /** The first `n` of the sorted sequence: the `n` elements of `s` with the
      smallest keys (all of them when there are fewer), in ascending key
      order; no element left out has a smaller key than one taken. */
  function SmallestByKey<T>(s: seq<T>, key: T -> int, n: nat): (r: seq<T>)
    ensures |r| == if n <= |s| then n else |s|
    ensures forall i :: 0 <= i < |r| ==> r[i] in s
    ensures forall i, j :: 0 <= i < j < |r| ==> key(r[i]) <= key(r[j])
    ensures forall x :: x in s && x !in r ==> forall i :: 0 <= i < |r| ==> key(r[i]) <= key(x)
  {
    var sorted := SortByKey(s, key);
    SortByKeyMembers(s, key);
    TakeSortedIsSmallest(sorted, s, key, n);
    Take(sorted, n)
  }

  /** A prefix of a sorted permutation of `s` holds keys no larger than
      those of the elements of `s` it leaves out. */
  lemma TakeSortedIsSmallest<T>(sorted: seq<T>, s: seq<T>, key: T -> int, n: nat)
    requires SortedBy(sorted, key) && multiset(sorted) == multiset(s)
    ensures forall x :: x in s && x !in Take(sorted, n) ==>
      forall i :: 0 <= i < |Take(sorted, n)| ==> key(Take(sorted, n)[i]) <= key(x)
  {
    var t := Take(sorted, n);
    forall x | x in s && x !in t
      ensures forall i :: 0 <= i < |t| ==> key(t[i]) <= key(x)
    {
      assert x in multiset(s);
      assert x in multiset(sorted);
      var k :| 0 <= k < |sorted| && sorted[k] == x;
      assert forall i :: 0 <= i < |t| ==> t[i] == sorted[i] != x;
      assert |t| <= k;
    }
  }

  /** Removing the element at `k` removes one occurrence of it. */
  lemma MultisetRemove<T>(s: seq<T>, k: nat)
    requires k < |s|
    ensures multiset(s[..k] + s[k + 1..]) == multiset(s) - multiset{s[k]}
  {
    assert s == s[..k] + [s[k]] + s[k + 1..];
  }

  /** The sum splits off the element at `k`. */
  lemma {:induction false} SumByRemove<T>(s: seq<T>, k: nat, f: T -> nat)
    requires k < |s|
    ensures SumBy(s, f) == f(s[k]) + SumBy(s[..k] + s[k + 1..], f)
    decreases k
  {
    if k == 0 {
      assert s[..0] + s[1..] == s[1..];
    } else {
      var t := s[1..];
      SumByRemove(t, k - 1, f);
      var removed := s[..k] + s[k + 1..];
      assert removed[0] == s[0];
      assert removed[1..] == t[..k - 1] + t[k..];
    }
  }

  /** A sum does not depend on the order of the elements. */
  lemma {:induction false} SumByPermutation<T>(a: seq<T>, b: seq<T>, f: T -> nat)
    requires multiset(a) == multiset(b)
    ensures SumBy(a, f) == SumBy(b, f)
    decreases |a|
  {
    if |a| > 0 {
      var x := a[0];
      assert x in multiset(b);
      var k :| 0 <= k < |b| && b[k] == x;
      MultisetRemove(b, k);
      assert a == [x] + a[1..];
      assert multiset(a[1..]) == multiset(a) - multiset{x};
      SumByPermutation(a[1..], b[..k] + b[k + 1..], f);
      SumByRemove(b, k, f);
    } else {
      assert |b| == |multiset(b)|;
    }
  }

  /** A prefix sums to no more than the whole. */
  lemma SumByTake<T>(s: seq<T>, n: nat, f: T -> nat)
    ensures SumBy(Take(s, n), f) <= SumBy(s, f)
  {
    if n <= |s| {
      assert s == s[..n] + s[n..];
      SumByAppend(s[..n], s[n..], f);
    }
  }

  /** A test every element passes filters nothing out. */
  lemma {:induction false} FilterAll<T(!new)>(s: seq<T>, p: T -> bool)
    requires forall i :: 0 <= i < |s| ==> p(s[i])
    ensures Filter(s, p) == s
    decreases |s|
  {
    if |s| > 0 {
      FilterAll(s[1..], p);
    }
  }

  /** A test no element passes filters everything out. */
  lemma {:induction false} FilterNone<T(!new)>(s: seq<T>, p: T -> bool)
    requires forall i :: 0 <= i < |s| ==> !p(s[i])
    ensures Filter(s, p) == []
    decreases |s|
  {
    if |s| > 0 {
      FilterNone(s[1..], p);
    }
  }

  /** No element occurs twice. */
  predicate NoDuplicates<T(==)>(s: seq<T>) {
    forall i, j :: 0 <= i < j < |s| ==> s[i] != s[j]
  }

  /** Filtering never introduces a repeat. */
  lemma {:induction false} FilterNoDuplicates<T(!new)>(s: seq<T>, p: T -> bool)
    requires NoDuplicates(s)
    ensures NoDuplicates(Filter(s, p))
    decreases |s|
  {
    if |s| > 0 {
      FilterNoDuplicates(s[1..], p);
      var rest := Filter(s[1..], p);
      if p(s[0]) {
        assert s[0] !in s[1..];
        assert s[0] !in rest;
        var r := [s[0]] + rest;
        forall i, j | 0 <= i < j < |r| ensures r[i] != r[j] {
          if i == 0 {
            assert r[j] == rest[j - 1] && r[j] in rest;
          } else {
            assert r[i] == rest[i - 1] && r[j] == rest[j - 1];
          }
        }
      }
    }
  }

  /** `Array.from(new Set(s))`: each element once, at its first occurrence. */
  function Distinct<T(==,!new)>(s: seq<T>): (r: seq<T>)
    ensures forall x :: x in r <==> x in s
    ensures NoDuplicates(r)
    ensures |r| <= |s|
    decreases |s|
  {
    if |s| == 0 then []
    else
      var init := s[..|s| - 1];
      var last := s[|s| - 1];
      assert s == init + [last];
      if last in init then Distinct(init) else Distinct(init) + [last]
  }

  /** `ss.flat()`: the elements of all the sequences, in order. */
  function Flatten<T(!new)>(ss: seq<seq<T>>): (r: seq<T>)
    ensures forall x :: x in r <==> exists i :: 0 <= i < |ss| && x in ss[i]
    decreases |ss|
  {
    if |ss| == 0 then []
    else
      var rest := Flatten(ss[1..]);
      assert forall i :: 1 <= i < |ss| ==> ss[i] == ss[1..][i - 1];
      ss[0] + rest
  }
}
