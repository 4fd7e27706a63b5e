/** Array helpers the source uses through `filter`, `new Set(...)`, `sort` and
    `reduce`: an order-preserving filter, first-occurrence de-duplication, a
    stable insertion sort under a total preorder, and sums. */
module Seqs {

  /** `s.filter(p)`. */
  function Filter<T>(s: seq<T>, p: T -> bool): (r: seq<T>)
    ensures |r| <= |s|
    ensures forall i :: 0 <= i < |r| ==> p(r[i]) && r[i] in s
    ensures forall i :: 0 <= i < |s| && p(s[i]) ==> s[i] in r
  {
    if s == [] then []
    else if p(s[0]) then [s[0]] + Filter(s[1..], p)
    else Filter(s[1..], p)
  }

  /** The three parts of a concatenation are its slices. */
  lemma ConcatParts<T>(a: seq<T>, b: seq<T>, c: seq<T>)
    ensures (a + b + c)[..|a|] == a
    ensures (a + b + c)[|a|..|a| + |b|] == b
    ensures (a + b + c)[|a| + |b|..] == c
  {
    var s := a + b + c;
    assert s[..|a|] == a;
    assert s[|a|..|a| + |b|] == b;
    assert s[|a| + |b|..] == c;
  }

  /** Moving one element across a concatenation. */
  lemma AppendAssoc<T>(a: seq<T>, x: T, b: seq<T>)
    ensures (a + [x]) + b == a + ([x] + b)
  {
  }

  lemma SnocAssoc<T>(a: seq<T>, b: seq<T>, x: T)
    ensures (a + b) + [x] == a + (b + [x])
  {
  }

  /** Filtering distributes over concatenation, so the relative order of the
      kept elements is the order they had. */
  lemma {:induction false} FilterConcat<T>(a: seq<T>, b: seq<T>, p: T -> bool)
    ensures Filter(a + b, p) == Filter(a, p) + Filter(b, p)
  {
    if a != [] {
      var ab := a + b;
      assert ab[0] == a[0] && ab[1..] == a[1..] + b;
      FilterConcat(a[1..], b, p);
      if p(a[0]) {
        assert Filter(ab, p) == [a[0]] + (Filter(a[1..], p) + Filter(b, p));
        assert Filter(a, p) == [a[0]] + Filter(a[1..], p);
      } else {
        assert Filter(ab, p) == Filter(a[1..], p) + Filter(b, p);
      }
    } else {
      assert a + b == b;
    }
  }

  /** A filter that keeps every element is the identity. */
  lemma {:induction false} FilterKeepsAll<T>(s: seq<T>, p: T -> bool)
    requires forall i :: 0 <= i < |s| ==> p(s[i])
    ensures Filter(s, p) == s
  {
    if s != [] {
      FilterKeepsAll(s[1..], p);
    }
  }

  /** Filtering twice by the same test filters once. */
  lemma {:induction false} FilterIdempotent<T>(s: seq<T>, p: T -> bool)
    ensures Filter(Filter(s, p), p) == Filter(s, p)
  {
    if s != [] {
      FilterIdempotent(s[1..], p);
      if p(s[0]) {
        assert ([s[0]] + Filter(s[1..], p))[1..] == Filter(s[1..], p);
      }
    }
  }

  /** The keys of `s` under `key`, in order. */
  function KeysBy<T, K>(s: seq<T>, key: T -> K): (r: seq<K>)
    ensures |r| == |s|
    ensures forall i :: 0 <= i < |s| ==> r[i] == key(s[i])
  {
    seq(|s|, i requires 0 <= i < |s| => key(s[i]))
  }

  /** The keys of a sequence with a first element. */
  lemma KeysCons<T, K>(x: T, rest: seq<T>, key: T -> K)
    ensures KeysBy([x] + rest, key) == [key(x)] + KeysBy(rest, key)
  {
  }

  /** Filtering a sequence with a first element. */
  lemma FilterCons<T>(x: T, rest: seq<T>, p: T -> bool)
    ensures Filter([x] + rest, p) == if p(x) then [x] + Filter(rest, p) else Filter(rest, p)
  {
    assert ([x] + rest)[1..] == rest;
  }

  /** Filtering by a test on the key and then taking the keys is taking
      the keys and then filtering them. */
  lemma {:induction false} KeysOfFilter<T, K>(s: seq<T>, key: T -> K, q: T -> bool, p: K -> bool)
    requires forall x :: q(x) == p(key(x))
    ensures KeysBy(Filter(s, q), key) == Filter(KeysBy(s, key), p)
  {
    if s != [] {
      var x, rest := s[0], s[1..];
      assert s == [x] + rest;
      KeysOfFilter(rest, key, q, p);
      KeysCons(x, rest, key);
      FilterCons(x, rest, q);
      FilterCons(key(x), KeysBy(rest, key), p);
      assert q(x) == p(key(x));
      if q(x) {
        KeysCons(x, Filter(rest, q), key);
      }
    }
  }

  /** Number of elements satisfying `p`. */
  function Count<T>(s: seq<T>, p: T -> bool): (n: nat)
    ensures n <= |s|
    ensures n == |Filter(s, p)|
  {
    if s == [] then 0 else (if p(s[0]) then 1 else 0) + Count(s[1..], p)
  }

  predicate NoDuplicates<T(==)>(s: seq<T>) {
    forall i, j :: 0 <= i < j < |s| ==> s[i] != s[j]
  }

  /** The elements of `s` not in `seen`, each kept at its first occurrence. */
  function DistinctAfter<T(==)>(s: seq<T>, seen: set<T>): (r: seq<T>)
    ensures NoDuplicates(r)
    ensures forall i :: 0 <= i < |r| ==> r[i] in s && r[i] !in seen
    ensures forall i :: 0 <= i < |s| && s[i] !in seen ==> s[i] in r
  {
    if s == [] then []
    else if s[0] in seen then DistinctAfter(s[1..], seen)
    else [s[0]] + DistinctAfter(s[1..], seen + {s[0]})
  }

  /** `Array.from(new Set(s))`: the distinct elements in first-appearance order. */
  function Distinct<T(==)>(s: seq<T>): (r: seq<T>)
    ensures NoDuplicates(r)
    ensures forall i :: 0 <= i < |r| ==> r[i] in s
    ensures forall i :: 0 <= i < |s| ==> s[i] in r
  {
    DistinctAfter(s, {})
  }

  /** `x` occurs in `s` before the first occurrence of `y`. */
  predicate FirstBefore<T(==)>(s: seq<T>, x: T, y: T) {
    exists a :: 0 <= a < |s| && s[a] == x && y !in s[..a + 1]
  }

  /** `DistinctAfter` keeps the first-appearance order of `s`: its `i`-th
      element occurs at `a`, before any occurrence of its `j`-th. */
  lemma {:induction false} DistinctAfterOrder<T>(s: seq<T>, seen: set<T>, i: nat, j: nat) returns (a: nat)
    requires i < j < |DistinctAfter(s, seen)|
    ensures a < |s| && s[a] == DistinctAfter(s, seen)[i] && DistinctAfter(s, seen)[j] !in s[..a + 1]
  {
    var r := DistinctAfter(s, seen);
    var seen' := if s[0] in seen then seen else seen + {s[0]};
    var rest := DistinctAfter(s[1..], seen');
    assert r == if s[0] in seen then rest else [s[0]] + rest;
    var j' := if s[0] in seen then j else j - 1;
    assert r[j] == rest[j'] && rest[j'] !in seen';
    assert r[j] != s[0];
    if s[0] !in seen && i == 0 {
      a := 0;
      assert s[..1] == [s[0]];
    } else {
      var i' := if s[0] in seen then i else i - 1;
      assert r[i] == rest[i'];
      var b := DistinctAfterOrder(s[1..], seen', i', j');
      a := b + 1;
      assert s[..a + 1] == [s[0]] + s[1..][..b + 1];
    }
  }

  /** `Distinct` keeps the first-appearance order of `s`. */
  lemma DistinctOrder<T>(s: seq<T>)
    ensures var r := Distinct(s);
      forall i, j :: 0 <= i < j < |r| ==> FirstBefore(s, r[i], r[j])
  {
    var r := Distinct(s);
    forall i, j | 0 <= i < j < |r|
      ensures FirstBefore(s, r[i], r[j])
    {
      var a := DistinctAfterOrder(s, {}, i, j);
    }
  }

  /** An element occurs at most once in a sequence without duplicates. */
  lemma {:induction false} NoDuplicatesCount<T>(a: seq<T>, x: T)
    requires NoDuplicates(a)
    ensures multiset(a)[x] <= 1
  {
    if a != [] {
      assert a == [a[0]] + a[1..];
      NoDuplicatesCount(a[1..], x);
      if x == a[0] {
        assert x !in a[1..];
      }
    }
  }

  /** Reordering keeps a sequence free of duplicates. */
  lemma PermutationNoDuplicates<T>(a: seq<T>, b: seq<T>)
    requires multiset(a) == multiset(b) && NoDuplicates(a)
    ensures NoDuplicates(b)
  {
    forall i, j | 0 <= i < j < |b| ensures b[i] != b[j] {
      assert b == b[..i] + [b[i]] + b[i + 1..j] + [b[j]] + b[j + 1..];
      NoDuplicatesCount(a, b[i]);
    }
  }

  /** A permutation of a duplicate-free sequence holds the same elements, once each. */
  lemma PermutationSameElements<T>(a: seq<T>, b: seq<T>)
    requires multiset(a) == multiset(b) && NoDuplicates(a)
    ensures NoDuplicates(b)
    ensures forall x :: x in b <==> x in a
  {
    PermutationNoDuplicates(a, b);
    forall x ensures x in b <==> x in a {
      assert x in b <==> x in multiset(b);
      assert x in a <==> x in multiset(a);
    }
  }

  /** Filtering keeps a sequence free of duplicates. */
  lemma {:induction false} FilterNoDuplicates<T>(s: seq<T>, p: T -> bool)
    requires NoDuplicates(s)
    ensures NoDuplicates(Filter(s, p))
  {
    if s != [] {
      FilterNoDuplicates(s[1..], p);
      var rest := Filter(s[1..], p);
      if p(s[0]) {
        assert s[0] !in s[1..];
        assert forall j :: 0 <= j < |rest| ==> rest[j] in s[1..];
        assert s[0] !in rest;
      }
    }
  }

  /** `le` is a total preorder: what a `sort` comparator must be. */
  ghost predicate TotalPreorder<T(!new)>(le: (T, T) -> bool) {
    && (forall a, b :: le(a, b) || le(b, a))
    && (forall a, b, c :: le(a, b) && le(b, c) ==> le(a, c))
  }

  predicate SortedBy<T>(s: seq<T>, le: (T, T) -> bool) {
    forall i, j :: 0 <= i < j < |s| ==> le(s[i], s[j])
  }

  /** Places `x` before the first element it may precede. */
  function Insert<T(!new)>(x: T, s: seq<T>, le: (T, T) -> bool): (r: seq<T>)
    requires TotalPreorder(le)
    requires SortedBy(s, le)
    ensures multiset(r) == multiset(s) + multiset{x}
    ensures SortedBy(r, le)
  {
    if s == [] || le(x, s[0]) then
      InsertFront(x, s, le);
      [x] + s
    else
      var t := Insert(x, s[1..], le);
      InsertBehind(x, s, t, le);
      [s[0]] + t
  }

  /** A head that may precede every element of a sorted tail keeps it sorted. */
  lemma ConsSorted<T>(h: T, t: seq<T>, le: (T, T) -> bool)
    requires SortedBy(t, le)
    requires forall k :: 0 <= k < |t| ==> le(h, t[k])
    ensures SortedBy([h] + t, le)
  {
    var r := [h] + t;
    forall i, j | 0 <= i < j < |r|
      ensures le(r[i], r[j])
    {
      assert r[j] == t[j - 1];
      if i > 0 {
        assert r[i] == t[i - 1];
      }
    }
  }

  /** `x` going in front of a sorted `s` whose head it may precede. */
  lemma InsertFront<T(!new)>(x: T, s: seq<T>, le: (T, T) -> bool)
    requires TotalPreorder(le)
    requires SortedBy(s, le)
    requires s == [] || le(x, s[0])
    ensures SortedBy([x] + s, le)
  {
    forall k | 0 <= k < |s|
      ensures le(x, s[k])
    {
      if k > 0 {
        assert le(s[0], s[k]);
      }
    }
    ConsSorted(x, s, le);
  }

  /** `x` going behind the head of `s`, into the rest `t`. */
  lemma InsertBehind<T(!new)>(x: T, s: seq<T>, t: seq<T>, le: (T, T) -> bool)
    requires TotalPreorder(le)
    requires SortedBy(s, le)
    requires s != [] && !le(x, s[0])
    requires multiset(t) == multiset(s[1..]) + multiset{x}
    requires SortedBy(t, le)
    ensures multiset([s[0]] + t) == multiset(s) + multiset{x}
    ensures SortedBy([s[0]] + t, le)
  {
    assert s == [s[0]] + s[1..];
    assert le(s[0], x);
    forall k | 0 <= k < |t|
      ensures le(s[0], t[k])
    {
      assert t[k] in multiset(t);
      if t[k] != x {
        assert t[k] in multiset(s[1..]);
        var j :| 0 <= j < |s[1..]| && s[1..][j] == t[k];
        assert s[j + 1] == t[k];
      }
    }
    ConsSorted(s[0], t, le);
  }

  /** `[...s].sort(cmp)` with a comparator whose "not after" relation is `le`. */
  function SortBy<T(!new)>(s: seq<T>, le: (T, T) -> bool): (r: seq<T>)
    requires TotalPreorder(le)
    ensures multiset(r) == multiset(s)
    ensures |r| == |s|
    ensures SortedBy(r, le)
  {
    if s == [] then []
    else
      assert s == [s[0]] + s[1..];
      var r := Insert(s[0], SortBy(s[1..], le), le);
      assert |multiset(r)| == |r| && |multiset(s)| == |s|;
      r
  }

  /** `s.reduce((acc, x) => acc + f(x), 0)`. */
  function SumOf<T>(s: seq<T>, f: T -> int): int {
    if s == [] then 0 else f(s[0]) + SumOf(s[1..], f)
  }

  lemma {:induction false} SumOfConcat<T>(a: seq<T>, b: seq<T>, f: T -> int)
    ensures SumOf(a + b, f) == SumOf(a, f) + SumOf(b, f)
  {
    if a != [] {
      assert (a + b)[1..] == a[1..] + b;
      SumOfConcat(a[1..], b, f);
    } else {
      assert a + b == b;
    }
  }

  lemma {:induction false} SumOfNonNegative<T>(s: seq<T>, f: T -> int)
    requires forall i :: 0 <= i < |s| ==> f(s[i]) >= 0
    ensures SumOf(s, f) >= 0
  {
    if s != [] {
      SumOfNonNegative(s[1..], f);
    }
  }
}
