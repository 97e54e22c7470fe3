/**
 * Generic sequence helpers shared by the standings modules: a stable
 * insertion sort under a total preorder (the model of `sorted(...)` and of an
 * ORM `order_by`), order-preserving filtering, sums and counts that do not
 * depend on the order of the rows, and sorted listings of finite integer sets
 * (the model of `.distinct().order_by(...)` and of `sorted(set)`).
 *
 * Folds recurse on the last element (`s[..|s| - 1]`), the same shape as a
 * loop that visits rows from the first to the last.
 */
module Seqs {

  /** `le` is total and transitive: a sort key comparison such as "points, then wins". */
  ghost predicate TotalPreorder<T(!new)>(le: (T, T) -> bool) {
    && (forall a, b :: le(a, b) || le(b, a))
    && (forall a, b, c :: le(a, b) && le(b, c) ==> le(a, c))
  }

  /** Two elements that compare equal under `le` (a tie on every sort key). */
  predicate Tied<T>(le: (T, T) -> bool, a: T, b: T) {
    le(a, b) && le(b, a)
  }

  predicate SortedBy<T>(s: seq<T>, le: (T, T) -> bool) {
    forall i, j :: 0 <= i < j < |s| ==> le(s[i], s[j])
  }

  predicate NoDuplicates<T(==)>(s: seq<T>) {
    forall i, j :: 0 <= i < j < |s| ==> s[i] != s[j]
  }

  /** The elements of `s` satisfying `p`, in their order in `s` (a `filter`). */
  function Keep<T(!new)>(s: seq<T>, p: T -> bool): (r: seq<T>)
    ensures |r| <= |s|
    ensures forall x :: x in r <==> x in s && p(x)
  {
    if s == [] then []
    else
      var prev := Keep(s[..|s| - 1], p);
      assert forall x :: x in s <==> x in s[..|s| - 1] || x == s[|s| - 1];
      if p(s[|s| - 1]) then prev + [s[|s| - 1]] else prev
  }

  lemma {:induction false} KeepAppend<T(!new)>(a: seq<T>, b: seq<T>, p: T -> bool)
    ensures Keep(a + b, p) == Keep(a, p) + Keep(b, p)
  {
    if b == [] {
      assert a + b == a;
    } else {
      assert (a + b)[..|a + b| - 1] == a + b[..|b| - 1];
      KeepAppend(a, b[..|b| - 1], p);
    }
  }

  lemma {:induction false} KeepCounts<T(!new)>(s: seq<T>, p: T -> bool, x: T)
    ensures multiset(Keep(s, p))[x] == if p(x) then multiset(s)[x] else 0
  {
    if s != [] {
      assert s == s[..|s| - 1] + [s[|s| - 1]];
      KeepCounts(s[..|s| - 1], p, x);
    }
  }

  /** Filtering depends only on the verdicts on the elements actually present. */
  lemma {:induction false} KeepSame<T(!new)>(s: seq<T>, p: T -> bool, q: T -> bool)
    requires forall x :: x in s ==> p(x) == q(x)
    ensures Keep(s, p) == Keep(s, q)
  {
    if s != [] {
      assert forall x :: x in s[..|s| - 1] ==> x in s;
      KeepSame(s[..|s| - 1], p, q);
    }
  }

  /** Widening the filter `p` to `p2` can only add elements satisfying `q`. */
  lemma {:induction false} KeepWider<T(!new)>(s: seq<T>, p: T -> bool, p2: T -> bool, q: T -> bool)
    requires forall x :: x in s && p(x) ==> p2(x)
    ensures |Keep(Keep(s, p), q)| <= |Keep(Keep(s, p2), q)|
  {
    if s != [] {
      var init, x := s[..|s| - 1], s[|s| - 1];
      assert forall y :: y in init ==> y in s;
      KeepWider(init, p, p2, q);
      KeepSingleton(x, q);
      if p(x) {
        KeepAppend(Keep(init, p), [x], q);
        KeepAppend(Keep(init, p2), [x], q);
      } else if p2(x) {
        KeepAppend(Keep(init, p2), [x], q);
      }
    }
  }

  /** Some element of `s` satisfies `p` exactly when one of its prefix does or its last element does. */
  lemma ExistsStep<T>(s: seq<T>, p: T -> bool)
    requires s != []
    ensures (exists x :: x in s && p(x)) <==> (exists x :: x in s[..|s| - 1] && p(x)) || p(s[|s| - 1])
  {
    assert forall x :: x in s <==> x in s[..|s| - 1] || x == s[|s| - 1];
  }

  /** Number of elements satisfying `p` (an ORM `Count(..., filter=...)`). */
  function Count<T(!new)>(s: seq<T>, p: T -> bool): nat {
    |Keep(s, p)|
  }

  /** A filter that is the disjoint union of two filters counts what they count together. */
  lemma {:induction false} CountSplit<T(!new)>(s: seq<T>, p: T -> bool, q: T -> bool, r: T -> bool)
    requires forall x :: p(x) == (q(x) || r(x))
    requires forall x :: !(q(x) && r(x))
    ensures Count(s, p) == Count(s, q) + Count(s, r)
  {
    if s != [] {
      CountSplit(s[..|s| - 1], p, q, r);
    }
  }

  lemma CountPermutation<T(!new)>(a: seq<T>, b: seq<T>, p: T -> bool)
    requires multiset(a) == multiset(b)
    ensures Count(a, p) == Count(b, p)
  {
    forall x ensures multiset(Keep(a, p))[x] == multiset(Keep(b, p))[x] {
      KeepCounts(a, p, x);
      KeepCounts(b, p, x);
    }
    assert multiset(Keep(a, p)) == multiset(Keep(b, p));
    assert |multiset(Keep(a, p))| == |multiset(Keep(b, p))|;
  }

  lemma MapSnoc<A, B>(s: seq<A>, f: A -> B)
    requires s != []
    ensures Map(s, f) == Map(s[..|s| - 1], f) + [f(s[|s| - 1])]
  {
    var m, m' := Map(s, f), Map(s[..|s| - 1], f) + [f(s[|s| - 1])];
    forall i | 0 <= i < |s| ensures m[i] == m'[i] {
      if i < |s| - 1 {
        assert m'[i] == Map(s[..|s| - 1], f)[i];
      }
    }
  }

  /** `y` occurs in the image of `s` once per element that `f` maps to it (`p` picks those elements). */
  lemma {:induction false} MapCounts<A(!new), B>(s: seq<A>, f: A -> B, y: B, p: A -> bool)
    requires forall x :: p(x) == (f(x) == y)
    ensures multiset(Map(s, f))[y] == Count(s, p)
  {
    if s != [] {
      var init, last := s[..|s| - 1], s[|s| - 1];
      MapCounts(init, f, y, p);
      MapSnoc(s, f);
      assert Count(s, p) == Count(init, p) + if p(last) then 1 else 0;
      assert multiset(Map(s, f)) == multiset(Map(init, f)) + multiset{f(last)};
    }
  }

  /**
   * The image of a permutation of `s` holds `y` once per element of `s` that
   * `f` maps to `y` (`p` picks those elements), and so holds it exactly when
   * some element maps to it.
   */
  lemma MapOfPermutation<A(!new), B>(rows: seq<A>, s: seq<A>, f: A -> B, y: B, p: A -> bool)
    requires multiset(rows) == multiset(s)
    requires forall x :: p(x) == (f(x) == y)
    ensures multiset(Map(rows, f))[y] == Count(s, p)
    ensures y in Map(rows, f) <==> exists x :: x in s && f(x) == y
  {
    MapCounts(rows, f, y, p);
    CountPermutation(rows, s, p);
    if exists x :: x in s && f(x) == y {
      var x :| x in s && f(x) == y;
      assert x in Keep(s, p);
    }
    if y in Map(rows, f) {
      var k := Keep(s, p);
      assert |k| > 0;
      assert k[0] in k;
    }
  }

  /** Sum of `f` over the elements (an ORM `Sum(...)`, 0 over no rows). */
  function Sum<T>(s: seq<T>, f: T -> int): int {
    if s == [] then 0 else Sum(s[..|s| - 1], f) + f(s[|s| - 1])
  }

  lemma {:induction false} SumAppend<T>(a: seq<T>, b: seq<T>, f: T -> int)
    ensures Sum(a + b, f) == Sum(a, f) + Sum(b, f)
  {
    if b == [] {
      assert a + b == a;
    } else {
      assert (a + b)[..|a + b| - 1] == a + b[..|b| - 1];
      SumAppend(a, b[..|b| - 1], f);
    }
  }

  /** With non-negative terms, widening the filter `p` to `p2` cannot lower the sum. */
  lemma {:induction false} SumWider<T(!new)>(s: seq<T>, p: T -> bool, p2: T -> bool, f: T -> int)
    requires forall x :: x in s && p(x) ==> p2(x)
    requires forall x :: x in s ==> f(x) >= 0
    ensures Sum(Keep(s, p), f) <= Sum(Keep(s, p2), f)
  {
    if s != [] {
      var init, x := s[..|s| - 1], s[|s| - 1];
      assert forall y :: y in init ==> y in s;
      SumWider(init, p, p2, f);
      if p(x) {
        SumAppend(Keep(init, p), [x], f);
        SumAppend(Keep(init, p2), [x], f);
      } else if p2(x) {
        SumAppend(Keep(init, p2), [x], f);
      }
    }
  }

  /** A sum does not depend on the order of the rows. */
  lemma SumRemove<T>(b: seq<T>, j: nat, f: T -> int)
    requires j < |b|
    ensures Sum(b, f) == Sum(b[..j] + b[j + 1..], f) + f(b[j])
  {
    var x := b[j];
    assert b == (b[..j] + [x]) + b[j + 1..];
    SumAppend(b[..j] + [x], b[j + 1..], f);
    SumAppend(b[..j], [x], f);
    SumAppend(b[..j], b[j + 1..], f);
    assert [x][..0] == [];
  }

  lemma MultisetRemove<T>(b: seq<T>, j: nat)
    requires j < |b|
    ensures multiset(b[..j] + b[j + 1..]) == multiset(b) - multiset{b[j]}
  {
    assert b == b[..j] + [b[j]] + b[j + 1..];
  }

  lemma {:induction false} SumPermutation<T>(a: seq<T>, b: seq<T>, f: T -> int)
    requires multiset(a) == multiset(b)
    ensures Sum(a, f) == Sum(b, f)
    decreases |a|
  {
    if a == [] {
      assert |b| == |multiset(b)| == 0;
    } else {
      var init, x := a[..|a| - 1], a[|a| - 1];
      assert a == init + [x];
      assert x in multiset(b);
      var j :| 0 <= j < |b| && b[j] == x;
      MultisetRemove(b, j);
      assert multiset(init) == multiset(a) - multiset{x};
      SumPermutation(init, b[..j] + b[j + 1..], f);
      SumRemove(b, j, f);
    }
  }

  /** Inserts `x` in front of the first element it does not come after: equal keys keep their order. */
  function Insert<T(!new)>(x: T, s: seq<T>, le: (T, T) -> bool): (r: seq<T>)
    requires TotalPreorder(le)
    requires SortedBy(s, le)
    ensures SortedBy(r, le)
    ensures multiset(r) == multiset(s) + multiset{x}
    ensures |r| == |s| + 1
  {
    if s == [] || le(x, s[0]) then [x] + s
    else
      var rest := Insert(x, s[1..], le);
      assert s == [s[0]] + s[1..];
      forall k | 0 <= k < |rest| ensures le(s[0], rest[k]) {
        assert rest[k] in multiset(rest);
      }
      [s[0]] + rest
  }

  /** Stable insertion sort: sorted under `le` and a permutation of `s`. */
  function SortBy<T(!new)>(s: seq<T>, le: (T, T) -> bool): (r: seq<T>)
    requires TotalPreorder(le)
    ensures SortedBy(r, le)
    ensures multiset(r) == multiset(s)
    ensures |r| == |s|
  {
    if s == [] then []
    else
      assert s == [s[0]] + s[1..];
      Insert(s[0], SortBy(s[1..], le), le)
  }

  /** `f` applied to every element, in order. */
  function Map<A, B>(s: seq<A>, f: A -> B): (r: seq<B>)
    ensures |r| == |s|
    ensures forall i :: 0 <= i < |s| ==> r[i] == f(s[i])
  {
    if s == [] then [] else [f(s[0])] + Map(s[1..], f)
  }

  lemma MapSorted<A, B>(s: seq<A>, le1: (A, A) -> bool, f: A -> B, le2: (B, B) -> bool)
    requires forall a, b :: le1(a, b) == le2(f(a), f(b))
    requires SortedBy(s, le1)
    ensures SortedBy(Map(s, f), le2)
  {
    forall i, j | 0 <= i < j < |s| ensures le2(Map(s, f)[i], Map(s, f)[j]) {
      assert le1(s[i], s[j]);
    }
  }

  /** When `x` goes in front, its image goes in front too. */
  lemma InsertMapFront<A(!new), B(!new)>(x: A, s: seq<A>, le1: (A, A) -> bool, f: A -> B, le2: (B, B) -> bool)
    requires TotalPreorder(le1) && TotalPreorder(le2)
    requires SortedBy(s, le1) && SortedBy(Map(s, f), le2)
    requires s != [] && le1(x, s[0]) && le2(f(x), f(s[0]))
    ensures Map(Insert(x, s, le1), f) == Insert(f(x), Map(s, f), le2)
  {
    assert ([x] + s)[1..] == s;
  }

  /** When `x` passes the first element, the image of the insertion starts with that element's image. */
  lemma InsertMapPassLeft<A(!new), B>(x: A, s: seq<A>, le1: (A, A) -> bool, f: A -> B)
    requires TotalPreorder(le1)
    requires SortedBy(s, le1)
    requires s != [] && !le1(x, s[0])
    ensures Map(Insert(x, s, le1), f) == [f(s[0])] + Map(Insert(x, s[1..], le1), f)
  {
    var rest := Insert(x, s[1..], le1);
    assert Insert(x, s, le1) == [s[0]] + rest;
    assert ([s[0]] + rest)[1..] == rest;
  }

  /** When `f(x)` passes the first image, its insertion starts with that image. */
  lemma InsertMapPassRight<A, B(!new)>(x: A, s: seq<A>, f: A -> B, le2: (B, B) -> bool)
    requires TotalPreorder(le2)
    requires s != [] && !le2(f(x), f(s[0]))
    requires SortedBy(Map(s, f), le2) && SortedBy(Map(s[1..], f), le2)
    ensures Insert(f(x), Map(s, f), le2) == [f(s[0])] + Insert(f(x), Map(s[1..], f), le2)
  {
    assert Map(s, f) == [f(s[0])] + Map(s[1..], f);
  }

  /** Sorting commutes with a projection that preserves the comparison. */
  lemma {:induction false} InsertMap<A(!new), B(!new)>(x: A, s: seq<A>, le1: (A, A) -> bool, f: A -> B, le2: (B, B) -> bool)
    requires TotalPreorder(le1) && TotalPreorder(le2)
    requires forall a, b :: le1(a, b) == le2(f(a), f(b))
    requires SortedBy(s, le1)
    requires SortedBy(Map(s, f), le2)
    ensures Map(Insert(x, s, le1), f) == Insert(f(x), Map(s, f), le2)
  {
    if s != [] {
      assert le1(x, s[0]) == le2(f(x), f(s[0]));
      if le1(x, s[0]) {
        InsertMapFront(x, s, le1, f, le2);
      } else {
        InsertMapPassLeft(x, s, le1, f);
        MapSorted(s[1..], le1, f, le2);
        InsertMapPassRight(x, s, f, le2);
        InsertMap(x, s[1..], le1, f, le2);
      }
    }
  }

  lemma {:induction false} SortByMap<A(!new), B(!new)>(s: seq<A>, le1: (A, A) -> bool, f: A -> B, le2: (B, B) -> bool)
    requires TotalPreorder(le1) && TotalPreorder(le2)
    requires forall a, b :: le1(a, b) == le2(f(a), f(b))
    ensures Map(SortBy(s, le1), f) == SortBy(Map(s, f), le2)
  {
    if s != [] {
      SortByMap(s[1..], le1, f, le2);
      MapSorted(SortBy(s[1..], le1), le1, f, le2);
      InsertMap(s[0], SortBy(s[1..], le1), le1, f, le2);
    }
  }

  /** Filtering by a condition every element meets changes nothing. */
  lemma {:induction false} KeepAll<T(!new)>(s: seq<T>, p: T -> bool)
    requires forall x :: x in s ==> p(x)
    ensures Keep(s, p) == s
  {
    if s != [] {
      assert forall x :: x in s[..|s| - 1] ==> x in s;
      KeepAll(s[..|s| - 1], p);
      assert s[..|s| - 1] + [s[|s| - 1]] == s;
    }
  }

  /** Filtering by a condition no element meets leaves nothing. */
  lemma {:induction false} KeepNone<T(!new)>(s: seq<T>, p: T -> bool)
    requires forall x :: x in s ==> !p(x)
    ensures Keep(s, p) == []
  {
    if s != [] {
      assert forall x :: x in s[..|s| - 1] ==> x in s;
      KeepNone(s[..|s| - 1], p);
    }
  }

  lemma KeepSingleton<T(!new)>(x: T, p: T -> bool)
    ensures Keep([x], p) == if p(x) then [x] else []
  {
    assert [x][..0] == [];
  }

  /** Two elements that `p` does not both accept can be swapped without changing what `Keep` keeps. */
  lemma KeepSwap<T(!new)>(y: T, x: T, kt: seq<T>, p: T -> bool)
    requires !(p(x) && p(y))
    ensures Keep([y], p) + (Keep([x], p) + kt) == Keep([x], p) + (Keep([y], p) + kt)
  {
    KeepSingleton(y, p);
    KeepSingleton(x, p);
  }

  /**
   * Inserting `x` keeps the order of the elements satisfying `p`, provided
   * `x` comes no later than any of them that also satisfies `p`.
   */
  lemma {:induction false} InsertKeepsOrder<T(!new)>(x: T, s: seq<T>, le: (T, T) -> bool, p: T -> bool)
    requires TotalPreorder(le)
    requires SortedBy(s, le)
    requires p(x) ==> forall z :: p(z) ==> le(x, z)
    ensures Keep(Insert(x, s, le), p) == Keep([x] + s, p)
  {
    if s != [] && !le(x, s[0]) {
      var y, tail := s[0], s[1..];
      var rest := Insert(x, tail, le);
      assert Insert(x, s, le) == [y] + rest;
      InsertKeepsOrder(x, tail, le, p);
      assert !(p(x) && p(y));
      KeepAppend([y], rest, p);
      KeepAppend([x], tail, p);
      KeepAppend([y], tail, p);
      KeepAppend([x], s, p);
      assert [y] + tail == s;
      KeepSwap(y, x, Keep(tail, p), p);
    }
  }

  /**
   * Stability: among the elements tied with `y` on every key, `SortBy` keeps
   * the order they had in the input (the guarantee of Python's `sorted`).
   */
  lemma {:induction false} SortByIsStable<T(!new)>(s: seq<T>, le: (T, T) -> bool, y: T)
    requires TotalPreorder(le)
    ensures Keep(SortBy(s, le), z => Tied(le, z, y)) == Keep(s, z => Tied(le, z, y))
  {
    var p := z => Tied(le, z, y);
    if s != [] {
      var rest := SortBy(s[1..], le);
      InsertKeepsOrder(s[0], rest, le, p);
      SortByIsStable(s[1..], le, y);
      KeepAppend([s[0]], rest, p);
      KeepAppend([s[0]], s[1..], p);
      assert [s[0]] + s[1..] == s;
    }
  }

  lemma {:induction false} NoDuplicatesCountsOne<T>(s: seq<T>, x: T)
    requires NoDuplicates(s)
    ensures multiset(s)[x] <= 1
  {
    if s != [] {
      var init := s[..|s| - 1];
      assert s == init + [s[|s| - 1]];
      NoDuplicatesCountsOne(init, x);
      if x == s[|s| - 1] {
        assert x !in init;
      }
    }
  }

  /** A permutation of a sequence without repetitions has none either. */
  lemma PermutationKeepsNoDuplicates<T>(a: seq<T>, b: seq<T>)
    requires multiset(a) == multiset(b)
    requires NoDuplicates(a)
    ensures NoDuplicates(b)
  {
    forall i, j | 0 <= i < j < |b| ensures b[i] != b[j] {
      if b[i] == b[j] {
        var x := b[i];
        assert b == b[..j] + [x] + b[j + 1..];
        assert x in b[..j];
        assert multiset(b)[x] == multiset(b[..j])[x] + 1 + multiset(b[j + 1..])[x];
        NoDuplicatesCountsOne(a, x);
        assert false;
      }
    }
  }

  lemma HasElement(s: set<int>)
    requires s != {}
    ensures exists y :: y in s
  {
    if forall y :: y !in s {
      assert false;
    }
  }

  lemma {:induction false} LeastElement(s: set<int>) returns (m: int)
    requires s != {}
    ensures m in s && forall x :: x in s ==> m <= x
    decreases s
  {
    HasElement(s);
    var y :| y in s;
    if s == {y} {
      m := y;
    } else {
      var low := LeastElement(s - {y});
      m := if y < low then y else low;
      forall x | x in s ensures m <= x {
        if x != y {
          assert x in s - {y};
        }
      }
    }
  }

  lemma MinExists(s: set<int>)
    requires s != {}
    ensures exists m :: m in s && forall x :: x in s ==> m <= x
  {
    var m := LeastElement(s);
  }

  /** The least element of a non-empty finite set of integers. */
  function MinOf(s: set<int>): (m: int)
    requires s != {}
    ensures m in s && forall x :: x in s ==> m <= x
  {
    MinExists(s);
    var m :| m in s && forall x :: x in s ==> m <= x;
    m
  }

  /** The greatest element of a non-empty finite set of integers (Python's `max`). */
  function MaxOf(s: set<int>): (m: int)
    requires s != {}
    ensures m in s && forall x :: x in s ==> x <= m
  {
    var negated := set x | x in s :: -x;
    assert -MinOf(s) in negated;
    var low := MinOf(negated);
    assert forall x :: x in s ==> -x in negated;
    -low
  }

  predicate StrictlyIncreasing(s: seq<int>) {
    forall i, j :: 0 <= i < j < |s| ==> s[i] < s[j]
  }

  predicate StrictlyDecreasing(s: seq<int>) {
    forall i, j :: 0 <= i < j < |s| ==> s[i] > s[j]
  }

  /** Putting the least element of `s` in front of an ascending listing of the others lists `s`. */
  lemma PrependLeast(s: set<int>, m: int, rest: seq<int>)
    requires m in s && forall x :: x in s ==> m <= x
    requires forall x :: x in rest <==> x in s - {m}
    requires StrictlyIncreasing(rest) && |rest| == |s - {m}|
    ensures forall x :: x in [m] + rest <==> x in s
    ensures StrictlyIncreasing([m] + rest)
    ensures |[m] + rest| == |s|
  {
    forall k | 0 <= k < |rest| ensures m < rest[k] {
      assert rest[k] in rest;
      assert rest[k] in s - {m};
    }
  }

  /** Putting the greatest element of `s` in front of a descending listing of the others lists `s`. */
  lemma PrependGreatest(s: set<int>, m: int, rest: seq<int>)
    requires m in s && forall x :: x in s ==> x <= m
    requires forall x :: x in rest <==> x in s - {m}
    requires StrictlyDecreasing(rest) && |rest| == |s - {m}|
    ensures forall x :: x in [m] + rest <==> x in s
    ensures StrictlyDecreasing([m] + rest)
    ensures |[m] + rest| == |s|
  {
    forall k | 0 <= k < |rest| ensures m > rest[k] {
      assert rest[k] in rest;
      assert rest[k] in s - {m};
    }
  }

  /** The elements of `s` in ascending order (Python's `sorted(set)`). */
  function Ascending(s: set<int>): (r: seq<int>)
    ensures forall x :: x in r <==> x in s
    ensures StrictlyIncreasing(r)
    ensures |r| == |s|
    decreases s
  {
    if s == {} then []
    else
      var m := MinOf(s);
      var rest := Ascending(s - {m});
      PrependLeast(s, m, rest);
      [m] + rest
  }

  /** The elements of `s` in descending order (an `order_by('-field')` over distinct values). */
  function Descending(s: set<int>): (r: seq<int>)
    ensures forall x :: x in r <==> x in s
    ensures StrictlyDecreasing(r)
    ensures |r| == |s|
    decreases s
  {
    if s == {} then []
    else
      var m := MaxOf(s);
      var rest := Descending(s - {m});
      PrependGreatest(s, m, rest);
      [m] + rest
  }
}
