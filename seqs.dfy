// Sequence vocabulary shared by the board checks: order-preserving filters,
// per-element report lists, the i < j pair scans the checks run inside each
// layer, and the "stop after too many reports" truncation.
module Seqs {
  import opened Wrappers

  /** The elements of xs satisfying p, in their original order. */
  function Filter<T(==)>(xs: seq<T>, p: T -> bool): (r: seq<T>)
    ensures |r| <= |xs|
  {
    if |xs| == 0 then []
    else
      var last := xs[|xs| - 1];
      Filter(xs[..|xs| - 1], p) + (if p(last) then [last] else [])
  }

  /** An element is kept exactly when it occurs and satisfies p. */
  lemma {:induction false} FilterMember<T>(xs: seq<T>, p: T -> bool, x: T)
    ensures x in Filter(xs, p) <==> x in xs && p(x)
  {
    if |xs| > 0 {
      var init := xs[..|xs| - 1];
      assert xs == init + [xs[|xs| - 1]];
      FilterMember(init, p, x);
    }
  }

  /** Filtering a prefix one element longer adds that element when it satisfies p. */
  lemma FilterStep<T>(xs: seq<T>, i: nat, p: T -> bool)
    requires i < |xs|
    ensures Filter(xs[..i + 1], p) == Filter(xs[..i], p) + (if p(xs[i]) then [xs[i]] else [])
  {
    assert xs[..i + 1][..i] == xs[..i];
  }

  /** Filtering distributes over concatenation. */
  lemma {:induction false} FilterConcat<T>(a: seq<T>, b: seq<T>, p: T -> bool)
    ensures Filter(a + b, p) == Filter(a, p) + Filter(b, p)
    decreases |b|
  {
    if |b| > 0 {
      var init := b[..|b| - 1];
      assert (a + b)[..|a + b| - 1] == a + init;
      FilterConcat(a, init, p);
    } else {
      assert a + b == a;
    }
  }

  /** Number of elements satisfying p. */
  function Count<T(==)>(xs: seq<T>, p: T -> bool): nat
  {
    |Filter(xs, p)|
  }

  /** Counting over a list with a given first element. */
  lemma CountCons<T>(x: T, xs: seq<T>, p: T -> bool)
    ensures Count([x] + xs, p) == (if p(x) then 1 else 0) + Count(xs, p)
  {
    FilterConcat([x], xs, p);
    assert [x][..0] == [];
  }

  /**
   * The outputs of every element in order, where element i is handed the
   * number k plus the count of earlier elements satisfying `bump`: a counter
   * threaded through a loop that advances it on some elements.
   */
  function Threaded<T, M>(xs: seq<T>, f: (T, nat) -> seq<M>, bump: T -> bool, k: nat): seq<M>
    decreases |xs|
  {
    if |xs| == 0 then []
    else f(xs[0], k) + Threaded(xs[1..], f, bump, k + if bump(xs[0]) then 1 else 0)
  }

  lemma ThreadedCons<T, M>(xs: seq<T>, f: (T, nat) -> seq<M>, bump: T -> bool, k: nat)
    requires |xs| > 0
    ensures Threaded(xs, f, bump, k) == f(xs[0], k) + Threaded(xs[1..], f, bump, k + if bump(xs[0]) then 1 else 0)
  {
  }

  /** Threading over a concatenation: the second part starts from k advanced by the first part's count. */
  lemma {:induction false} ThreadedAppend<T, M>(a: seq<T>, b: seq<T>, f: (T, nat) -> seq<M>, bump: T -> bool, k: nat)
    ensures Threaded(a + b, f, bump, k) == Threaded(a, f, bump, k) + Threaded(b, f, bump, k + Count(a, bump))
    decreases |a|
  {
    if |a| > 0 {
      var k' := k + if bump(a[0]) then 1 else 0;
      ThreadedCons(a + b, f, bump, k);
      ThreadedCons(a, f, bump, k);
      assert (a + b)[0] == a[0] && (a + b)[1..] == a[1..] + b;
      ThreadedAppend(a[1..], b, f, bump, k');
      assert a == [a[0]] + a[1..];
      CountCons(a[0], a[1..], bump);
      Assoc(f(a[0], k), Threaded(a[1..], f, bump, k'), Threaded(b, f, bump, k' + Count(a[1..], bump)));
    } else {
      assert a + b == b;
    }
  }

  /** Element i is handed k plus the count of the elements before it. */
  lemma ThreadedAt<T, M>(xs: seq<T>, f: (T, nat) -> seq<M>, bump: T -> bool, k: nat, i: nat)
    requires i < |xs|
    ensures Threaded(xs, f, bump, k) ==
            Threaded(xs[..i], f, bump, k) + f(xs[i], k + Count(xs[..i], bump))
            + Threaded(xs[i + 1..], f, bump, k + Count(xs[..i + 1], bump))
  {
    assert xs == xs[..i] + xs[i..];
    ThreadedAppend(xs[..i], xs[i..], f, bump, k);
    assert xs[i..][0] == xs[i] && xs[i..][1..] == xs[i + 1..];
    FilterStep(xs, i, bump);
  }

  /** The reports of every element, concatenated in element order. */
  function FlatMap<T, M>(xs: seq<T>, f: T -> seq<M>): seq<M>
  {
    if |xs| == 0 then [] else FlatMap(xs[..|xs| - 1], f) + f(xs[|xs| - 1])
  }

  lemma {:induction false} FlatMapMember<T, M>(xs: seq<T>, f: T -> seq<M>, m: M)
    ensures m in FlatMap(xs, f) <==> exists i :: 0 <= i < |xs| && m in f(xs[i])
  {
    if |xs| > 0 {
      var init := xs[..|xs| - 1];
      FlatMapMember(init, f, m);
      if m in FlatMap(xs, f) && m !in f(xs[|xs| - 1]) {
        var i :| 0 <= i < |init| && m in f(init[i]);
        assert xs[i] == init[i];
      }
      if exists i :: 0 <= i < |xs| && m in f(xs[i]) {
        var i :| 0 <= i < |xs| && m in f(xs[i]);
        if i < |init| {
          assert init[i] == xs[i];
        }
      }
    }
  }

  /** The reports of every element after the first. */
  lemma FlatMapTailMember<T, M>(xs: seq<T>, f: T -> seq<M>, m: M)
    requires |xs| > 0
    ensures m in FlatMap(xs[1..], f) <==> exists i :: 1 <= i < |xs| && m in f(xs[i])
  {
    FlatMapMember(xs[1..], f, m);
    if exists i :: 1 <= i < |xs| && m in f(xs[i]) {
      var i :| 1 <= i < |xs| && m in f(xs[i]);
      assert xs[1..][i - 1] == xs[i];
    }
  }

  /** Extending the range after the first element by one more. */
  lemma FlatMapTailStep<T, M>(xs: seq<T>, i: nat, f: T -> seq<M>)
    requires 1 <= i < |xs|
    ensures FlatMap(xs[1..i + 1], f) == FlatMap(xs[1..i], f) + f(xs[i])
  {
    assert xs[1..i + 1][..i - 1] == xs[1..i];
  }

  /** FlatMap distributes over concatenation. */
  lemma {:induction false} FlatMapConcat<T, M>(a: seq<T>, b: seq<T>, f: T -> seq<M>)
    ensures FlatMap(a + b, f) == FlatMap(a, f) + FlatMap(b, f)
    decreases |b|
  {
    if |b| > 0 {
      var init := b[..|b| - 1];
      assert (a + b)[..|a + b| - 1] == a + init;
      FlatMapConcat(a, init, f);
    } else {
      assert a + b == a;
    }
  }

  /** Lists whose elements give the same reports position by position give the same FlatMap. */
  lemma {:induction false} FlatMapPointwise<T, U, M>(xs: seq<T>, ys: seq<U>, f: T -> seq<M>, g: U -> seq<M>)
    requires |xs| == |ys|
    requires forall i :: 0 <= i < |xs| ==> f(xs[i]) == g(ys[i])
    ensures FlatMap(xs, f) == FlatMap(ys, g)
  {
    if |xs| > 0 {
      FlatMapPointwise(xs[..|xs| - 1], ys[..|ys| - 1], f, g);
    }
  }

  /** Lists that agree on p and q position by position have the same count. */
  lemma {:induction false} CountPointwise<T, U>(xs: seq<T>, ys: seq<U>, p: T -> bool, q: U -> bool)
    requires |xs| == |ys|
    requires forall i :: 0 <= i < |xs| ==> p(xs[i]) == q(ys[i])
    ensures Count(xs, p) == Count(ys, q)
  {
    if |xs| > 0 {
      CountPointwise(xs[..|xs| - 1], ys[..|ys| - 1], p, q);
    }
  }

  /** No element satisfying p, nothing counted. */
  lemma {:induction false} CountZero<T>(xs: seq<T>, p: T -> bool)
    requires forall i :: 0 <= i < |xs| ==> !p(xs[i])
    ensures Count(xs, p) == 0
  {
    if |xs| > 0 {
      CountZero(xs[..|xs| - 1], p);
    }
  }

  /** Counting over a list with one more element at the end. */
  lemma CountSnoc<T>(xs: seq<T>, x: T, p: T -> bool)
    ensures Count(xs + [x], p) == Count(xs, p) + (if p(x) then 1 else 0)
  {
    assert (xs + [x])[..|xs|] == xs;
  }

  /** Every element contributing at most `bound` reports bounds the total. */
  lemma {:induction false} FlatMapLength<T, M>(xs: seq<T>, f: T -> seq<M>, bound: nat)
    requires forall x :: x in xs ==> |f(x)| <= bound
    ensures |FlatMap(xs, f)| <= bound * |xs|
  {
    if |xs| > 0 {
      var init := xs[..|xs| - 1];
      var last := xs[|xs| - 1];
      assert forall x :: x in init ==> x in xs;
      FlatMapLength(init, f, bound);
      assert last in xs;
      assert |FlatMap(xs, f)| == |FlatMap(init, f)| + |f(last)|;
      MulSucc(bound, |init|);
    }
  }

  lemma MulSucc(a: nat, n: nat)
    ensures a * (n + 1) == a * n + a
  {
  }

  /** Same for FlatMap: one more element appends its reports. */
  lemma FlatMapStep<T, M>(xs: seq<T>, i: nat, f: T -> seq<M>)
    requires i < |xs|
    ensures FlatMap(xs[..i + 1], f) == FlatMap(xs[..i], f) + f(xs[i])
  {
    assert xs[..i + 1][..i] == xs[..i];
  }

  /** When every element has one report if it satisfies p and none otherwise, the reports are counted by p. */
  lemma {:induction false} FlatMapCount<T, M>(xs: seq<T>, f: T -> seq<M>, p: T -> bool)
    requires forall x :: |f(x)| == if p(x) then 1 else 0
    ensures |FlatMap(xs, f)| == Count(xs, p)
  {
    if |xs| > 0 {
      FlatMapCount(xs[..|xs| - 1], f, p);
    }
  }

  /** There are positions a < b holding u and v. */
  predicate PairIn<T(==)>(s: seq<T>, u: T, v: T)
  {
    exists a, b :: 0 <= a < b < |s| && s[a] == u && s[b] == v
  }

  lemma PairInSnoc<T>(s: seq<T>, x: T, u: T, v: T)
    ensures PairIn(s + [x], u, v) <==> PairIn(s, u, v) || (v == x && u in s)
  {
    var t := s + [x];
    if PairIn(t, u, v) {
      var a, b :| 0 <= a < b < |t| && t[a] == u && t[b] == v;
      if b == |s| {
        assert s[a] == u;
      } else {
        assert s[a] == u && s[b] == v;
      }
    }
    if PairIn(s, u, v) {
      var a, b :| 0 <= a < b < |s| && s[a] == u && s[b] == v;
      assert t[a] == u && t[b] == v;
    }
    if v == x && u in s {
      var a :| 0 <= a < |s| && s[a] == u;
      assert t[a] == u && t[|s|] == v;
    }
  }

  /** Filtering keeps the relative order of the kept elements, and only that. */
  lemma {:induction false} FilterPairs<T>(xs: seq<T>, p: T -> bool, u: T, v: T)
    ensures PairIn(Filter(xs, p), u, v) <==> PairIn(xs, u, v) && p(u) && p(v)
  {
    if |xs| == 0 {
    } else {
      var init, last := xs[..|xs| - 1], xs[|xs| - 1];
      assert xs == init + [last];
      FilterPairs(init, p, u, v);
      PairInSnoc(init, last, u, v);
      if p(last) {
        assert Filter(xs, p) == Filter(init, p) + [last];
        PairInSnoc(Filter(init, p), last, u, v);
        FilterMember(init, p, u);
      } else {
        assert Filter(xs, p) == Filter(init, p);
      }
    }
  }

  // ---- the i < j scans ----

  /** Reports for the pairs (i, j), (i, j+1), ..., (i, |xs|-1). */
  function Row<T, M>(xs: seq<T>, i: nat, j: nat, report: (T, T) -> Option<M>): seq<M>
    requires i < |xs| && j <= |xs|
    decreases |xs| - j
  {
    if j == |xs| then [] else ToSeq(report(xs[i], xs[j])) + Row(xs, i, j + 1, report)
  }

  /** Reports for every pair a < b with a >= i, in the order of the nested loops. */
  function Tri<T, M>(xs: seq<T>, i: nat, report: (T, T) -> Option<M>): seq<M>
    requires i <= |xs|
    decreases |xs| - i
  {
    if i == |xs| then [] else Row(xs, i, i + 1, report) + Tri(xs, i + 1, report)
  }

  /** Tri over every group from index k on, groups taken in order. */
  function Groups<T, M>(groups: seq<seq<T>>, k: nat, report: (T, T) -> Option<M>): seq<M>
    requires k <= |groups|
    decreases |groups| - k
  {
    if k == |groups| then [] else Tri(groups[k], 0, report) + Groups(groups, k + 1, report)
  }

  /** One step of a row: the report of pair (i, j) followed by the rest. */
  lemma RowStep<T, M>(xs: seq<T>, i: nat, j: nat, report: (T, T) -> Option<M>)
    requires i < |xs| && j < |xs|
    ensures Row(xs, i, j, report) == ToSeq(report(xs[i], xs[j])) + Row(xs, i, j + 1, report)
  {
  }

  /** A report in row i comes from a pair (i, b) with b >= j. */
  lemma {:induction false} RowSound<T, M>(xs: seq<T>, i: nat, j: nat, report: (T, T) -> Option<M>, m: M)
    returns (b: nat)
    requires i < |xs| && j <= |xs| && m in Row(xs, i, j, report)
    ensures j <= b < |xs| && report(xs[i], xs[b]) == Some(m)
    decreases |xs| - j
  {
    if m in ToSeq(report(xs[i], xs[j])) {
      b := j;
    } else {
      b := RowSound(xs, i, j + 1, report, m);
    }
  }

  /** Every report of a pair (i, b) with b >= j is in row i from j. */
  lemma {:induction false} RowComplete<T, M>(xs: seq<T>, i: nat, j: nat, b: nat, report: (T, T) -> Option<M>)
    requires i < |xs| && j <= b < |xs| && report(xs[i], xs[b]).Some?
    ensures report(xs[i], xs[b]).value in Row(xs, i, j, report)
    decreases |xs| - j
  {
    RowStep(xs, i, j, report);
    if b > j {
      RowComplete(xs, i, j + 1, b, report);
    } else {
      assert ToSeq(report(xs[i], xs[b])) == [report(xs[i], xs[b]).value];
    }
  }

  lemma RowMember<T, M>(xs: seq<T>, i: nat, j: nat, report: (T, T) -> Option<M>, m: M)
    requires i < |xs| && j <= |xs|
    ensures m in Row(xs, i, j, report) <==> exists b :: j <= b < |xs| && report(xs[i], xs[b]) == Some(m)
  {
    if m in Row(xs, i, j, report) {
      var b := RowSound(xs, i, j, report, m);
    }
    if exists b :: j <= b < |xs| && report(xs[i], xs[b]) == Some(m) {
      var b :| j <= b < |xs| && report(xs[i], xs[b]) == Some(m);
      RowComplete(xs, i, j, b, report);
    }
  }

  /** One step of the pair scan: row i followed by the scan from i + 1. */
  lemma TriStep<T, M>(xs: seq<T>, i: nat, report: (T, T) -> Option<M>)
    requires i < |xs|
    ensures Tri(xs, i, report) == Row(xs, i, i + 1, report) + Tri(xs, i + 1, report)
  {
  }

  /** One step over the groups: group k's scan followed by the later groups'. */
  lemma GroupsStep<T, M>(groups: seq<seq<T>>, k: nat, report: (T, T) -> Option<M>)
    requires k < |groups|
    ensures Groups(groups, k, report) == Tri(groups[k], 0, report) + Groups(groups, k + 1, report)
  {
  }

  /** A report of the scan from i comes from a pair a < b with a >= i. */
  lemma {:induction false} TriSound<T, M>(xs: seq<T>, i: nat, report: (T, T) -> Option<M>, m: M)
    returns (a: nat, b: nat)
    requires i <= |xs| && m in Tri(xs, i, report)
    ensures i <= a < b < |xs| && report(xs[a], xs[b]) == Some(m)
    decreases |xs| - i
  {
    TriStep(xs, i, report);
    if m in Row(xs, i, i + 1, report) {
      a := i;
      b := RowSound(xs, i, i + 1, report, m);
    } else {
      a, b := TriSound(xs, i + 1, report, m);
    }
  }

  /** Every report of a pair a < b with a >= i is in the scan from i. */
  lemma {:induction false} TriComplete<T, M>(xs: seq<T>, i: nat, a: nat, b: nat, report: (T, T) -> Option<M>)
    requires i <= a < b < |xs| && report(xs[a], xs[b]).Some?
    ensures report(xs[a], xs[b]).value in Tri(xs, i, report)
    decreases |xs| - i
  {
    TriStep(xs, i, report);
    if a == i {
      RowComplete(xs, i, i + 1, b, report);
    } else {
      TriComplete(xs, i + 1, a, b, report);
    }
  }

  lemma TriMember<T, M>(xs: seq<T>, i: nat, report: (T, T) -> Option<M>, m: M)
    requires i <= |xs|
    ensures m in Tri(xs, i, report) <==>
            exists a, b :: i <= a < b < |xs| && report(xs[a], xs[b]) == Some(m)
  {
    if m in Tri(xs, i, report) {
      var a, b := TriSound(xs, i, report, m);
    }
    if exists a, b :: i <= a < b < |xs| && report(xs[a], xs[b]) == Some(m) {
      var a, b :| i <= a < b < |xs| && report(xs[a], xs[b]) == Some(m);
      TriComplete(xs, i, a, b, report);
    }
  }

  lemma {:induction false} GroupsMember<T, M>(groups: seq<seq<T>>, k: nat, report: (T, T) -> Option<M>, m: M)
    requires k <= |groups|
    ensures m in Groups(groups, k, report) <==>
            exists g :: k <= g < |groups| && m in Tri(groups[g], 0, report)
    decreases |groups| - k
  {
    if k < |groups| {
      GroupsMember(groups, k + 1, report, m);
      GroupsStep(groups, k, report);
      if m in Groups(groups, k + 1, report) {
        var g :| k + 1 <= g < |groups| && m in Tri(groups[g], 0, report);
      }
    }
  }

  /** At most one report per pair: a row of n pairs has at most n reports. */
  lemma {:induction false} RowLength<T, M>(xs: seq<T>, i: nat, j: nat, report: (T, T) -> Option<M>)
    requires i < |xs| && j <= |xs|
    ensures |Row(xs, i, j, report)| <= |xs| - j
    decreases |xs| - j
  {
    if j < |xs| {
      RowLength(xs, i, j + 1, report);
      RowStep(xs, i, j, report);
    }
  }

  /**
   * The list `xs` truncated the way the checks do it: once the report that
   * makes it longer than `limit` has been added, a marker is appended and
   * scanning stops.
   */
  function Cap<M>(xs: seq<M>, limit: nat, marker: M): (r: seq<M>)
    ensures |r| <= limit + 2
    ensures |xs| <= limit ==> r == xs
    ensures |xs| > limit ==> |r| == limit + 2 && r[limit + 1] == marker &&
                             forall k :: 0 <= k <= limit ==> r[k] == xs[k]
  {
    if |xs| > limit then xs[..limit + 1] + [marker] else xs
  }

  /** A truncated list holds only reports of the full list and the marker. */
  lemma CapSubset<M>(xs: seq<M>, limit: nat, marker: M, m: M)
    requires m in Cap(xs, limit, marker)
    ensures m in xs || m == marker
  {
    if |xs| > limit {
      var k :| 0 <= k < |Cap(xs, limit, marker)| && Cap(xs, limit, marker)[k] == m;
      if k <= limit {
        assert xs[k] == m;
      }
    }
  }

  /** An empty scan stays empty after truncation; a non-empty one stays non-empty. */
  lemma CapEmpty<M>(xs: seq<M>, limit: nat, marker: M)
    ensures Cap(xs, limit, marker) == [] <==> xs == []
  {
  }

  /** The inner loop over j > i for one i. */
  method ScanRow<T, M>(xs: seq<T>, i: nat, report: (T, T) -> Option<M>) returns (row: seq<M>)
    requires i < |xs|
    ensures row == Row(xs, i, i + 1, report)
  {
    row := [];
    var j := i + 1;
    while j < |xs|
      invariant i + 1 <= j <= |xs|
      invariant row + Row(xs, i, j, report) == Row(xs, i, i + 1, report)
    {
      var r := report(xs[i], xs[j]);
      RowStep(xs, i, j, report);
      Assoc(row, ToSeq(r), Row(xs, i, j + 1, report));
      row := row + ToSeq(r);
      j := j + 1;
    }
  }

  /** The nested i < j loop over one list. */
  method ScanPairs<T, M>(xs: seq<T>, report: (T, T) -> Option<M>) returns (out: seq<M>)
    ensures out == Tri(xs, 0, report)
  {
    out := [];
    var i := 0;
    while i < |xs|
      invariant 0 <= i <= |xs|
      invariant out + Tri(xs, i, report) == Tri(xs, 0, report)
    {
      var row := ScanRow(xs, i, report);
      TriStep(xs, i, report);
      Assoc(out, row, Tri(xs, i + 1, report));
      out := out + row;
      i := i + 1;
    }
  }

  /** Prefixes of a list longer than n agree on the first n elements with the list. */
  lemma PrefixOfLonger<M>(a: seq<M>, b: seq<M>, n: nat)
    requires n <= |a|
    ensures (a + b)[..n] == a[..n]
  {
  }

  /**
   * The inner loop over j > i for one i, appending to the reports gathered
   * so far and stopping as soon as there are more than `limit` (`full`).
   */
  method ScanRowCapped<T, M>(xs: seq<T>, i: nat, report: (T, T) -> Option<M>, prior: seq<M>, limit: nat)
    returns (out: seq<M>, full: bool)
    requires i < |xs| && |prior| <= limit
    ensures full ==> limit < |prior + Row(xs, i, i + 1, report)| &&
                     out == (prior + Row(xs, i, i + 1, report))[..limit + 1]
    ensures !full ==> out == prior + Row(xs, i, i + 1, report) && |out| <= limit
  {
    ghost var all := prior + Row(xs, i, i + 1, report);
    out, full := prior, false;
    var j := i + 1;
    while j < |xs|
      invariant i + 1 <= j <= |xs|
      invariant |out| <= limit
      invariant out + Row(xs, i, j, report) == all
    {
      var r := report(xs[i], xs[j]);
      ghost var rest := Row(xs, i, j + 1, report);
      assert out + ToSeq(r) + rest == all;
      out := out + ToSeq(r);
      if |out| > limit {
        PrefixOfLonger(out, rest, limit + 1);
        full := true;
        return;
      }
      j := j + 1;
    }
  }

  /** The i < j loop over one group, with the same early stop. */
  method ScanGroupCapped<T, M>(xs: seq<T>, report: (T, T) -> Option<M>, prior: seq<M>, limit: nat)
    returns (out: seq<M>, full: bool)
    requires |prior| <= limit
    ensures full ==> limit < |prior + Tri(xs, 0, report)| && out == (prior + Tri(xs, 0, report))[..limit + 1]
    ensures !full ==> out == prior + Tri(xs, 0, report) && |out| <= limit
  {
    ghost var all := prior + Tri(xs, 0, report);
    out, full := prior, false;
    var i := 0;
    while i < |xs|
      invariant 0 <= i <= |xs|
      invariant |out| <= limit
      invariant out + Tri(xs, i, report) == all
    {
      ghost var before := out;
      ghost var afterRow := Tri(xs, i + 1, report);
      out, full := ScanRowCapped(xs, i, report, out, limit);
      TriStep(xs, i, report);
      Assoc(before, Row(xs, i, i + 1, report), afterRow);
      if full {
        PrefixOfLonger(before + Row(xs, i, i + 1, report), afterRow, limit + 1);
        return;
      }
      i := i + 1;
    }
  }

  /**
   * The nested i < j loop run inside every group in turn, returning early
   * with a marker once more than `limit` reports have been gathered.
   */
  method ScanGroupsCapped<T, M>(groups: seq<seq<T>>, report: (T, T) -> Option<M>, limit: nat, marker: M)
    returns (out: seq<M>)
    ensures out == Cap(Groups(groups, 0, report), limit, marker)
  {
    ghost var all := Groups(groups, 0, report);
    out := [];
    var k := 0;
    while k < |groups|
      invariant 0 <= k <= |groups|
      invariant |out| <= limit
      invariant out + Groups(groups, k, report) == all
    {
      ghost var before := out;
      ghost var afterGroup := Groups(groups, k + 1, report);
      var full;
      out, full := ScanGroupCapped(groups[k], report, out, limit);
      GroupsStep(groups, k, report);
      Assoc(before, Tri(groups[k], 0, report), afterGroup);
      if full {
        CapFull(all, before + Tri(groups[k], 0, report), afterGroup, out, limit, marker);
        out := out + [marker];
        return;
      }
      k := k + 1;
    }
    assert out == all;
  }

  /** A sequence split around a position holding c. */
  lemma Rejoin<T>(r: seq<T>, k: nat, c: T)
    requires k < |r| && r[k] == c
    ensures r == r[..k] + [c] + r[k + 1..]
  {
  }

  lemma Assoc4<T>(a: seq<T>, b: seq<T>, c: seq<T>, d: seq<T>, e: seq<T>)
    ensures a + b + (c + d + e) == a + b + c + d + e
  {
  }

  lemma Assoc<M>(a: seq<M>, b: seq<M>, c: seq<M>)
    ensures a + (b + c) == (a + b) + c
  {
  }

  /** A scan stopped early holds the first limit + 1 reports, and its truncation adds the marker. */
  lemma CapFull<M>(all: seq<M>, done: seq<M>, rest: seq<M>, out: seq<M>, limit: nat, marker: M)
    requires all == done + rest && limit < |done| && out == done[..limit + 1]
    ensures Cap(all, limit, marker) == out + [marker]
  {
    PrefixOfLonger(done, rest, limit + 1);
  }
}
