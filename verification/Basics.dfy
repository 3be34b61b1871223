/** Shared vocabulary: optional values, string order and a stable sort. */
module Basics {

  datatype Option<+T> = None | Some(value: T)

  /** Code-point order on strings, as Python's `<=` on `str`. */
  predicate StringLeq(a: string, b: string) {
    a == "" || (b != "" && (a[0] < b[0] || (a[0] == b[0] && StringLeq(a[1..], b[1..]))))
  }

  lemma {:induction false} StringLeqTotal(a: string, b: string)
    ensures StringLeq(a, b) || StringLeq(b, a)
  {
    if a != "" && b != "" && a[0] == b[0] {
      StringLeqTotal(a[1..], b[1..]);
    }
  }

  lemma {:induction false} StringLeqTransitive(a: string, b: string, c: string)
    requires StringLeq(a, b) && StringLeq(b, c)
    ensures StringLeq(a, c)
  {
    if a != "" && a[0] == b[0] && b[0] == c[0] {
      StringLeqTransitive(a[1..], b[1..], c[1..]);
    }
  }

  /** Lexicographic: a prefix comes first, otherwise the first difference decides. */
  lemma {:induction false} StringLeqMeans(a: string, b: string)
    ensures StringLeq(a, b) <==> a <= b || exists k :: FirstDifference(a, b, k) && a[k] < b[k]
  {
    if a != "" && b != "" && a[0] == b[0] {
      StringLeqMeans(a[1..], b[1..]);
      assert a == [a[0]] + a[1..] && b == [b[0]] + b[1..];
      if k :| FirstDifference(a[1..], b[1..], k) && a[1..][k] < b[1..][k] {
        assert a[..k + 1] == [a[0]] + a[1..][..k] && b[..k + 1] == [b[0]] + b[1..][..k];
        assert FirstDifference(a, b, k + 1) && a[k + 1] < b[k + 1];
      }
      if k :| FirstDifference(a, b, k) && a[k] < b[k] {
        assert k > 0 && a[1..][..k - 1] == a[..k][1..] && b[1..][..k - 1] == b[..k][1..];
        assert FirstDifference(a[1..], b[1..], k - 1) && a[1..][k - 1] < b[1..][k - 1];
      }
    } else if a != "" && b != "" {
      assert a[..0] == b[..0];
      assert FirstDifference(a, b, 0);
    }
  }

  ghost predicate FirstDifference(a: string, b: string, k: int) {
    0 <= k < |a| && k < |b| && a[..k] == b[..k] && a[k] != b[k]
  }

  /** Positions in a list, in order. */
  ghost predicate Increasing(at: seq<nat>, bound: nat) {
    && (forall i :: 0 <= i < |at| ==> at[i] < bound)
    && (forall i, j :: 0 <= i < j < |at| ==> at[i] < at[j])
  }

  /** `ys` has one element for every element of `xs` that is kept, in order: the one made from it. The
      positions of the kept elements are `at`. */
  ghost predicate Filtered<T(!new), U(!new)>(xs: seq<T>, ys: seq<U>, at: seq<nat>, makes: (T, U) -> bool,
                                             keep: T -> bool) {
    && |at| == |ys| && Increasing(at, |xs|)
    && (forall i :: 0 <= i < |at| ==> makes(xs[at[i]], ys[i]))
    && (forall j: nat :: j < |xs| ==> (j in at <==> keep(xs[j])))
  }

  /** The positions of a list's tail, and perhaps of its head, in the list itself. */
  ghost function Shifted(at: seq<nat>, first: bool): seq<nat> {
    (if first then [0] else []) + seq(|at|, i requires 0 <= i < |at| => at[i] + 1)
  }

  lemma ShiftedHas(at: seq<nat>, first: bool, j: nat)
    ensures j + 1 in Shifted(at, first) <==> j in at
    ensures 0 in Shifted(at, first) <==> first
  {
    var s, n := Shifted(at, first), if first then 1 else 0;
    if i :| 0 <= i < |at| && at[i] == j { assert s[n + i] == j + 1; }
    if i :| 0 <= i < |s| && s[i] == j + 1 { assert at[i - n] == j; }
  }

  lemma ShiftedIncreases(at: seq<nat>, first: bool, bound: nat)
    requires Increasing(at, bound)
    ensures Increasing(Shifted(at, first), bound + 1)
  {
  }

  lemma ShiftedMakes<T(!new), U(!new)>(
    x: T, xs: seq<T>, head: seq<U>, ys: seq<U>, at: seq<nat>, makes: (T, U) -> bool, first: bool, i: nat)
    requires |at| == |ys| && (forall k :: 0 <= k < |at| ==> at[k] < |xs| && makes(xs[at[k]], ys[k]))
    requires if first then |head| == 1 && makes(x, head[0]) else head == []
    requires i < |Shifted(at, first)|
    ensures |Shifted(at, first)| == |head + ys| && Shifted(at, first)[i] < |[x] + xs|
    ensures makes(([x] + xs)[Shifted(at, first)[i]], (head + ys)[i])
  {
    var n := |head|;
    if i >= n {
      var k := i - n;
      assert Shifted(at, first)[i] == at[k] + 1 && (head + ys)[i] == ys[k];
      assert ([x] + xs)[at[k] + 1] == xs[at[k]];
    }
  }

  lemma FilteredCons<T(!new), U(!new)>(
    x: T, xs: seq<T>, head: seq<U>, ys: seq<U>, at: seq<nat>, makes: (T, U) -> bool, keep: T -> bool)
    requires Filtered(xs, ys, at, makes, keep)
    requires if keep(x) then |head| == 1 && makes(x, head[0]) else head == []
    ensures Filtered([x] + xs, head + ys, Shifted(at, keep(x)), makes, keep)
  {
    var s := Shifted(at, keep(x));
    ShiftedIncreases(at, keep(x), |xs|);
    forall i: nat | i < |s| ensures s[i] < |[x] + xs| && makes(([x] + xs)[s[i]], (head + ys)[i]) {
      ShiftedMakes(x, xs, head, ys, at, makes, keep(x), i);
    }
    forall j: nat | j < |[x] + xs| ensures j in s <==> keep(([x] + xs)[j]) {
      ShiftedHas(at, keep(x), if j == 0 then 0 else j - 1);
      assert j > 0 ==> ([x] + xs)[j] == xs[j - 1];
    }
  }

  ghost predicate TotalPreorder<T(!new)>(leq: (T, T) -> bool) {
    && (forall a, b :: leq(a, b) || leq(b, a))
    && (forall a, b, c :: leq(a, b) && leq(b, c) ==> leq(a, c))
  }

  ghost predicate SortedBy<T>(xs: seq<T>, leq: (T, T) -> bool) {
    forall i, j :: 0 <= i < j < |xs| ==> leq(xs[i], xs[j])
  }

  /** Python's `list.sort`: a stable sort, here by insertion. */
  function SortBy<T>(xs: seq<T>, leq: (T, T) -> bool): seq<T> {
    if xs == [] then [] else InsertSorted(xs[0], SortBy(xs[1..], leq), leq)
  }

  function InsertSorted<T>(x: T, ys: seq<T>, leq: (T, T) -> bool): seq<T> {
    if ys == [] || leq(x, ys[0]) then [x] + ys else [ys[0]] + InsertSorted(x, ys[1..], leq)
  }

  /** The elements that tie with `z`, in order. */
  ghost function Ties<T>(xs: seq<T>, z: T, leq: (T, T) -> bool): seq<T> {
    if xs == [] then []
    else (if leq(xs[0], z) && leq(z, xs[0]) then [xs[0]] else []) + Ties(xs[1..], z, leq)
  }

  lemma {:induction false} InsertSortedElements<T(!new)>(x: T, ys: seq<T>, leq: (T, T) -> bool)
    ensures multiset(InsertSorted(x, ys, leq)) == multiset{x} + multiset(ys)
  {
    if ys != [] {
      assert ys == [ys[0]] + ys[1..];
      if !leq(x, ys[0]) { InsertSortedElements(x, ys[1..], leq); }
    }
  }

  lemma {:induction false} InsertSortedOrder<T(!new)>(x: T, ys: seq<T>, leq: (T, T) -> bool)
    requires TotalPreorder(leq) && SortedBy(ys, leq)
    ensures SortedBy(InsertSorted(x, ys, leq), leq)
  {
    if ys != [] {
      if leq(x, ys[0]) {
        forall j | 0 <= j < |ys| ensures leq(x, ys[j]) {
          assert j == 0 || leq(ys[0], ys[j]);
        }
      } else {
        var tail := InsertSorted(x, ys[1..], leq);
        InsertSortedOrder(x, ys[1..], leq);
        InsertSortedElements(x, ys[1..], leq);
        forall j | 0 <= j < |tail| ensures leq(ys[0], tail[j]) {
          assert tail[j] in multiset(tail);
          assert tail[j] == x || tail[j] in ys[1..];
        }
      }
    }
  }

  lemma {:induction false} InsertSortedTies<T(!new)>(x: T, ys: seq<T>, z: T, leq: (T, T) -> bool)
    requires TotalPreorder(leq)
    ensures Ties(InsertSorted(x, ys, leq), z, leq) == Ties([x] + ys, z, leq)
  {
    assert ([x] + ys)[1..] == ys;
    if ys != [] && !leq(x, ys[0]) {
      InsertSortedTies(x, ys[1..], z, leq);
      assert ([x] + ys[1..])[1..] == ys[1..];
      var zs := InsertSorted(x, ys, leq);
      assert zs[1..] == InsertSorted(x, ys[1..], leq);
    }
  }

  /** Sorted, a permutation, and stable: elements that tie keep their order. */
  lemma {:induction false} SortByFacts<T(!new)>(xs: seq<T>, leq: (T, T) -> bool)
    requires TotalPreorder(leq)
    ensures SortedBy(SortBy(xs, leq), leq)
    ensures multiset(SortBy(xs, leq)) == multiset(xs)
    ensures forall z :: Ties(SortBy(xs, leq), z, leq) == Ties(xs, z, leq)
  {
    if xs != [] {
      SortByFacts(xs[1..], leq);
      InsertSortedOrder(xs[0], SortBy(xs[1..], leq), leq);
      InsertSortedElements(xs[0], SortBy(xs[1..], leq), leq);
      assert xs == [xs[0]] + xs[1..];
      forall z ensures Ties(SortBy(xs, leq), z, leq) == Ties(xs, z, leq) {
        var ys := SortBy(xs[1..], leq);
        InsertSortedTies(xs[0], ys, z, leq);
        assert ([xs[0]] + ys)[1..] == ys;
      }
    }
  }
}
