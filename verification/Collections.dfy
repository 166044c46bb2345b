/** Sequence and set facts used by several components: rows come out of SQL scans and
    hash sets in an order nobody promises, so scans are enumerations of a set. */
module Collections {

  ghost predicate Distinct<T>(s: seq<T>)
  {
    forall i, j :: 0 <= i < j < |s| ==> s[i] != s[j]
  }

  function Elems<T>(s: seq<T>): set<T> {
    set x | x in s
  }

  function Min(a: int, b: int): int {
    if a <= b then a else b
  }

  function Max(a: int, b: int): int {
    if a <= b then b else a
  }

  /** Every entry is an index below `n`. */
  predicate IndicesBelow(order: seq<nat>, n: nat) {
    forall k :: 0 <= k < |order| ==> order[k] < n
  }

  /** `clamp(0.0, 1.0)`. */
  function Clamp(x: real): (r: real)
    ensures 0.0 <= r <= 1.0
    ensures 0.0 <= x <= 1.0 ==> r == x
  {
    if x < 0.0 then 0.0 else if x > 1.0 then 1.0 else x
  }

  /** The subsequence of `s` that satisfies `p`. */
  function Filter<T(!new)>(s: seq<T>, p: T -> bool): (r: seq<T>)
    ensures forall x :: x in r <==> x in s && p(x)
  {
    if s == [] then []
    else if p(s[0]) then [s[0]] + Filter(s[1..], p)
    else Filter(s[1..], p)
  }

  lemma FilterAppend<T(!new)>(s: seq<T>, t: seq<T>, p: T -> bool)
    ensures Filter(s + t, p) == Filter(s, p) + Filter(t, p)
  {
    if s == [] {
      assert s + t == t;
    } else {
      assert (s + t)[1..] == s[1..] + t;
      FilterAppend(s[1..], t, p);
    }
  }

  lemma FilterNone<T(!new)>(s: seq<T>, p: T -> bool)
    ensures Filter(s[..0], p) == []
  {
  }

  /** One more element of a prefix, seen through a filter. */
  lemma FilterStep<T(!new)>(s: seq<T>, i: nat, p: T -> bool)
    requires i < |s|
    ensures Filter(s[..i + 1], p) == if p(s[i]) then Filter(s[..i], p) + [s[i]] else Filter(s[..i], p)
  {
    assert s[..i + 1] == s[..i] + [s[i]];
    FilterAppend(s[..i], [s[i]], p);
  }

  lemma {:induction false} FilterCount<T(!new)>(s: seq<T>, p: T -> bool, x: T)
    ensures multiset(Filter(s, p))[x] == if p(x) then multiset(s)[x] else 0
  {
    if s != [] {
      FilterCount(s[1..], p, x);
      assert s == [s[0]] + s[1..];
    }
  }

  /** How many elements satisfy `p` does not depend on their order. */
  lemma FilterPermutes<T(!new)>(a: seq<T>, b: seq<T>, p: T -> bool)
    requires multiset(a) == multiset(b)
    ensures multiset(Filter(a, p)) == multiset(Filter(b, p)) && |Filter(a, p)| == |Filter(b, p)|
  {
    forall x ensures multiset(Filter(a, p))[x] == multiset(Filter(b, p))[x] {
      FilterCount(a, p, x);
      FilterCount(b, p, x);
    }
    assert multiset(Filter(a, p)) == multiset(Filter(b, p));
    assert |multiset(Filter(a, p))| == |Filter(a, p)| && |multiset(Filter(b, p))| == |Filter(b, p)|;
  }

  lemma SomethingIn<T>(s: seq<T>)
    ensures s != [] ==> exists x :: x in s
  {
    if s != [] {
      assert s[0] in s;
    }
  }

  lemma DistinctTail<T>(s: seq<T>)
    requires s != [] && Distinct(s)
    ensures Distinct(s[1..]) && s[0] !in s[1..]
  {
  }

  lemma DistinctCons<T>(x: T, s: seq<T>)
    requires Distinct(s) && x !in s
    ensures Distinct([x] + s)
  {
  }

  lemma DistinctConcat<T>(s: seq<T>, t: seq<T>)
    requires Distinct(s) && Distinct(t) && forall x :: x in t ==> x !in s
    ensures Distinct(s + t)
  {
    forall i, j | 0 <= i < j < |s + t| ensures (s + t)[i] != (s + t)[j] {
      if i < |s| <= j {
        assert t[j - |s|] in t;
      }
    }
  }

  lemma {:induction false} FilterDistinct<T(!new)>(s: seq<T>, p: T -> bool)
    requires Distinct(s)
    ensures Distinct(Filter(s, p))
  {
    hide Distinct;
    if s == [] {
      assert Filter(s, p) == s;
    } else {
      DistinctTail(s);
      FilterDistinct(s[1..], p);
      if p(s[0]) {
        DistinctCons(s[0], Filter(s[1..], p));
      }
    }
  }

  lemma {:induction false} DistinctCardinality<T>(s: seq<T>)
    requires Distinct(s)
    ensures |Elems(s)| == |s|
  {
    hide Distinct;
    if s != [] {
      DistinctTail(s);
      DistinctCardinality(s[1..]);
      assert s == [s[0]] + s[1..];
      assert Elems(s) == {s[0]} + Elems(s[1..]);
    }
  }

  lemma SubsetCardinality<T>(a: set<T>, b: set<T>)
    requires a <= b
    ensures |a| <= |b|
  {
    assert b == a + (b - a);
  }

  lemma DistinctBound<T>(s: seq<T>, universe: set<T>)
    requires Distinct(s) && Elems(s) <= universe
    ensures |s| <= |universe|
  {
    DistinctCardinality(s);
    SubsetCardinality(Elems(s), universe);
  }

  /** `r` is `s` with `x` put in at `h`. */
  ghost predicate Inserted<T(!new)>(s: seq<T>, h: nat, x: T, r: seq<T>) {
    && h <= |s| && |r| == |s| + 1 && r[h] == x
    && (forall j :: 0 <= j < h ==> r[j] == s[j])
    && (forall j :: h < j < |r| ==> r[j] == s[j - 1])
    && (forall y :: y in r <==> y in s || y == x)
  }

  lemma InsertIsInserted<T(!new)>(s: seq<T>, h: nat, x: T)
    requires h <= |s|
    ensures Inserted(s, h, x, s[..h] + [x] + s[h..])
  {
    assert s == s[..h] + s[h..];
  }

  // ---- Stable sort by descending key ----

  function InsertDesc(s: seq<nat>, x: nat, key: nat -> real): seq<nat> {
    if s == [] then [x]
    else if key(s[|s| - 1]) >= key(x) then s + [x]
    else InsertDesc(s[..|s| - 1], x, key) + [s[|s| - 1]]
  }

  function SortDesc(s: seq<nat>, key: nat -> real): seq<nat> {
    if s == [] then [] else InsertDesc(SortDesc(s[..|s| - 1], key), s[|s| - 1], key)
  }

  lemma {:induction false} InsertDescPermutes(s: seq<nat>, x: nat, key: nat -> real)
    ensures multiset(InsertDesc(s, x, key)) == multiset(s) + multiset{x}
  {
    if s != [] && key(s[|s| - 1]) < key(x) {
      InsertDescPermutes(s[..|s| - 1], x, key);
      assert s == s[..|s| - 1] + [s[|s| - 1]];
    }
  }

  lemma {:induction false} SortDescPermutes(s: seq<nat>, key: nat -> real)
    ensures multiset(SortDesc(s, key)) == multiset(s)
  {
    hide InsertDesc;
    if s == [] {
    } else {
      var front, last := s[..|s| - 1], s[|s| - 1];
      SortDescPermutes(front, key);
      InsertDescPermutes(SortDesc(front, key), last, key);
      assert s == front + [last];
    }
  }

  ghost predicate Descending(s: seq<nat>, key: nat -> real) {
    forall i, j :: 0 <= i < j < |s| ==> key(s[i]) >= key(s[j])
  }

  /** Whatever stands earlier in `s` goes before whatever stands later. */
  ghost predicate Ordered(s: seq<nat>, before: (nat, nat) -> bool) {
    forall i, j :: 0 <= i < j < |s| ==> before(s[i], s[j])
  }

  /** The larger key goes first, and `tie` decides between equal ones. */
  function ByKey(key: nat -> real, tie: (nat, nat) -> bool): (nat, nat) -> bool {
    (x: nat, y: nat) => key(x) > key(y) || (key(x) == key(y) && tie(x, y))
  }

  lemma OrderedSnoc(s: seq<nat>, y: nat, before: (nat, nat) -> bool)
    requires Ordered(s, before) && forall z :: z in s ==> before(z, y)
    ensures Ordered(s + [y], before)
  {
  }

  lemma OrderedFront(s: seq<nat>, before: (nat, nat) -> bool)
    requires Ordered(s, before) && s != []
    ensures var front, last := s[..|s| - 1], s[|s| - 1];
            Ordered(front, before) && forall z :: z in front ==> before(z, last)
  {
  }

  lemma {:induction false} FilterOrdered(s: seq<nat>, keep: nat -> bool, before: (nat, nat) -> bool)
    requires Ordered(s, before)
    ensures Ordered(Filter(s, keep), before)
  {
    if s != [] {
      FilterOrdered(s[1..], keep, before);
      forall x | x in Filter(s[1..], keep) ensures before(s[0], x) {
        assert x in s[1..];
      }
    }
  }

  lemma {:induction false} InsertDescIsStable(s: seq<nat>, x: nat, key: nat -> real, tie: (nat, nat) -> bool)
    requires Ordered(s, ByKey(key, tie)) && forall y :: y in s ==> tie(y, x)
    ensures Ordered(InsertDesc(s, x, key), ByKey(key, tie))
    ensures forall y :: y in InsertDesc(s, x, key) <==> y in s || y == x
  {
    if s != [] {
      hide Ordered;
      var front, last := s[..|s| - 1], s[|s| - 1];
      OrderedFront(s, ByKey(key, tie));
      assert s == front + [last];
      if key(last) < key(x) {
        InsertDescIsStable(front, x, key, tie);
        OrderedSnoc(InsertDesc(front, x, key), last, ByKey(key, tie));
      } else {
        OrderedSnoc(s, x, ByKey(key, tie));
      }
    } else {
      assert Ordered([x], ByKey(key, tie));
    }
  }

  /** The sort orders by descending key and leaves equals in the order in which they came. */
  lemma {:induction false} SortDescIsStable(s: seq<nat>, key: nat -> real, tie: (nat, nat) -> bool)
    requires Ordered(s, tie)
    ensures Ordered(SortDesc(s, key), ByKey(key, tie))
    ensures forall y :: y in SortDesc(s, key) <==> y in s
  {
    hide InsertDesc;
    if s != [] {
      var front, last := s[..|s| - 1], s[|s| - 1];
      OrderedFront(s, tie);
      assert s == front + [last];
      SortDescIsStable(front, key, tie);
      InsertDescIsStable(SortDesc(front, key), last, key, tie);
    }
  }

  lemma SortDescOrders(s: seq<nat>, key: nat -> real)
    ensures Descending(SortDesc(s, key), key)
  {
    hide SortDesc;
    var any := (x: nat, y: nat) => true;
    SortDescIsStable(s, key, any);
    assert forall x, y :: ByKey(key, any)(x, y) ==> key(x) >= key(y);
  }

  lemma PermutationIsDistinct<T>(a: seq<T>, b: seq<T>)
    requires Distinct(a) && multiset(a) == multiset(b)
    ensures Distinct(b) && Elems(a) == Elems(b)
  {
    forall x ensures x in a <==> x in b {
      assert x in a <==> x in multiset(a);
      assert x in b <==> x in multiset(b);
    }
    forall i, j | 0 <= i < j < |b| ensures b[i] != b[j] {
      if b[i] == b[j] {
        RepeatedCount(b, i, j);
        DistinctCount(a, b[i]);
      }
    }
  }

  lemma RepeatedCount<T>(b: seq<T>, i: nat, j: nat)
    requires i < j < |b| && b[i] == b[j]
    ensures multiset(b)[b[i]] >= 2
  {
    assert b == b[..i] + [b[i]] + b[i + 1..j] + [b[j]] + b[j + 1..];
  }

  lemma {:induction false} DistinctCount<T>(a: seq<T>, x: T)
    requires Distinct(a)
    ensures multiset(a)[x] <= 1
  {
    if a != [] {
      DistinctTail(a);
      DistinctCount(a[1..], x);
      assert a == [a[0]] + a[1..];
      if a[0] == x {
        assert x !in multiset(a[1..]);
      }
    }
  }

  /** An unordered scan: every element of `s` exactly once, in whatever order comes. */
  method Enumerate<T(==)>(s: set<T>) returns (q: seq<T>)
    ensures Distinct(q)
    ensures Elems(q) == s
  {
    q := [];
    var rest := s;
    while rest != {}
      invariant Distinct(q)
      invariant rest <= s
      invariant Elems(q) == s - rest
      decreases |rest|
    {
      var x :| x in rest;
      assert x !in Elems(q);
      assert Elems(q + [x]) == Elems(q) + {x};
      q := q + [x];
      rest := rest - {x};
    }
  }
}
