/** The index arithmetic shared by SumPayments, FilterPayments and
    FilterPaymentsByFn (pkg/wallet/service.go:607-787): `kol = n / goroutines`,
    `goroutines - 1` workers over ranges of `kol` payments, and one last worker
    over the rest. Also the sequential meaning of what the workers compute: the
    total of the amounts and the filtered sub-sequence. */
module Partition {
  import opened Types

  /** A half-open range [lo, hi) of payment indices handed to one worker. */
  datatype Range = Range(lo: int, hi: int)

  /** Go's integer division, which truncates toward zero. */
  function GoDiv(a: int, b: int): (q: int)
    requires b != 0
    ensures a >= 0 && b > 0 ==> q == a / b
  {
    if (a >= 0) == (b > 0) then Abs(a) / Abs(b) else -(Abs(a) / Abs(b))
  }

  function Abs(x: int): nat { if x < 0 then -x else x }

  /** `kol`: the length of every range but the last. */
  function Kol(n: nat, goroutines: Int64): int
  {
    if goroutines == 0 then n else GoDiv(n, goroutines)
  }

  /** The bound `goroutines-1` of the workers' loop, computed in int64: it
      wraps to MaxInt64 when goroutines is MinInt64. */
  function LoopBound(goroutines: Int64): Int64
  {
    Wrap64(goroutines - 1)
  }

  /** How many workers run: one per loop turn (none when the bound is not
      positive) plus the one for the tail. */
  function Workers(goroutines: Int64): (w: nat)
    ensures w >= 1
  {
    if LoopBound(goroutines) <= 0 then 1 else LoopBound(goroutines) + 1
  }

  /** `w` ranges of `size` indices starting at 0, the last one stretched to n. */
  function Contiguous(n: nat, w: nat, size: int): (rs: seq<Range>)
    ensures |rs| == w
  {
    seq(w, j requires 0 <= j < w =>
      if j < w - 1 then Range(j * size, (j + 1) * size) else Range(j * size, n))
  }

  /** The ranges the workers of SumPayments and FilterPayments* read, in the
      order the loop starts them; the last is `s.payments[i*kol:]`. */
  function Ranges(n: nat, goroutines: Int64): seq<Range>
  {
    Contiguous(n, Workers(goroutines), Kol(n, goroutines))
  }

  /** A sequence of ranges that starts at 0, ends at n, and in which each range
      is non-empty-or-empty but never reversed and begins where the previous ends. */
  ghost predicate Chain(rs: seq<Range>, n: nat)
  {
    && |rs| >= 1
    && rs[0].lo == 0
    && rs[|rs| - 1].hi == n
    && (forall j :: 0 <= j < |rs| ==> 0 <= rs[j].lo <= rs[j].hi <= n)
    && (forall j :: 0 <= j < |rs| - 1 ==> rs[j].hi == rs[j + 1].lo)
  }

  lemma MulMonotone(a: int, b: int, c: int)
    requires a <= b && c >= 0
    ensures a * c <= b * c
  {
    assert b * c - a * c == (b - a) * c;
  }

  /** Contiguous ranges form a chain when the first w - 1 of them fit in n. */
  lemma ContiguousChain(n: nat, w: nat, size: int)
    requires w >= 1
    requires w == 1 || (size >= 0 && (w - 1) * size <= n)
    ensures Chain(Contiguous(n, w, size), n)
  {
    var rs := Contiguous(n, w, size);
    forall j | 0 <= j < w ensures 0 <= rs[j].lo <= rs[j].hi <= n {
      if w > 1 {
        MulMonotone(0, j, size);
        MulMonotone(j, j + 1, size);
        if j < w - 1 {
          MulMonotone(j + 1, w - 1, size);
        } else {
          MulMonotone(j, w - 1, size);
        }
      }
    }
  }

  /** The partition of SumPayments/FilterPayments*: for EVERY int64 goroutines
      value there are Workers(goroutines) ranges, each within [0, n),
      contiguous, from 0 to n. For 2 <= goroutines there are goroutines of
      them; from MinInt64 + 1 to 1 it is the one range [0, n); at MinInt64
      the loop bound wraps, and 2^63 - 1 workers get an empty range before the
      tail takes [0, n). The length n of a Go slice is itself an int. */
  lemma RangesChain(n: nat, goroutines: Int64)
    requires n <= MaxInt64
    ensures |Ranges(n, goroutines)| == Workers(goroutines)
    ensures Chain(Ranges(n, goroutines), n)
    ensures goroutines >= 2 ==> |Ranges(n, goroutines)| == goroutines
    ensures MinInt64 < goroutines <= 1 ==> Ranges(n, goroutines) == [Range(0, n)]
    ensures goroutines == MinInt64 ==>
              && |Ranges(n, goroutines)| == MaxInt64 + 1
              && (forall j :: 0 <= j < MaxInt64 ==> Ranges(n, goroutines)[j] == Range(0, 0))
              && Ranges(n, goroutines)[MaxInt64] == Range(0, n)
  {
    if goroutines >= 2 {
      assert LoopBound(goroutines) == goroutines - 1;
      KolFits(n, goroutines);
      ContiguousChain(n, goroutines, n / goroutines);
    } else if goroutines == MinInt64 {
      WrappedBound();
      assert Kol(n, goroutines) == 0;
      ContiguousChain(n, MaxInt64 + 1, 0);
    } else {
      assert LoopBound(goroutines) == goroutines - 1;
      OneRange(n, Kol(n, goroutines));
    }
  }

  /** `goroutines-1` at MinInt64 wraps around to MaxInt64. */
  lemma WrappedBound()
    ensures LoopBound(MinInt64) == MaxInt64
  {
    assert MinInt64 - 1 + Modulus == MaxInt64;
  }

  lemma OneRange(n: nat, size: int)
    ensures Contiguous(n, 1, size) == [Range(0, n)]
    ensures Chain(Contiguous(n, 1, size), n)
  {
    assert Contiguous(n, 1, size)[0] == Range(0, n);
  }

  /** With two workers or more, the first goroutines - 1 ranges fit in n. */
  lemma KolFits(n: nat, goroutines: int)
    requires goroutines >= 2
    ensures (goroutines - 1) * (n / goroutines) <= n
  {
    var q := n / goroutines;
    assert goroutines * q + n % goroutines == n;
    MulMonotone(goroutines - 1, goroutines, q);
  }

  /** In a chain, an earlier range ends no later than a later one begins. */
  lemma {:induction false} ChainOrdered(rs: seq<Range>, n: nat, i: int, j: int)
    requires Chain(rs, n)
    requires 0 <= i < j < |rs|
    ensures rs[i].hi <= rs[j].lo
    decreases j - i
  {
    if i + 1 < j {
      ChainOrdered(rs, n, i + 1, j);
    }
  }

  /** A chain covers every index of [0, n) ... */
  lemma {:induction false} ChainCovers(rs: seq<Range>, n: nat, x: int) returns (j: nat)
    requires Chain(rs, n)
    requires 0 <= x < n
    ensures j < |rs| && rs[j].lo <= x < rs[j].hi
  {
    j := 0;
    while x >= rs[j].hi
      invariant 0 <= j < |rs| && rs[j].lo <= x
      decreases |rs| - j
    {
      j := j + 1;
    }
  }

  /** ... exactly once. */
  lemma ChainDisjoint(rs: seq<Range>, n: nat, x: int, i: int, j: int)
    requires Chain(rs, n)
    requires 0 <= i < |rs| && 0 <= j < |rs|
    requires rs[i].lo <= x < rs[i].hi && rs[j].lo <= x < rs[j].hi
    ensures i == j
  {
    if i < j {
      ChainOrdered(rs, n, i, j);
    } else if j < i {
      ChainOrdered(rs, n, j, i);
    }
  }

  /** The worker ranges cover every payment index exactly once, for every
      goroutines value. */
  lemma RangesCoverOnce(n: nat, goroutines: Int64, x: int)
    requires n <= MaxInt64
    requires 0 <= x < n
    ensures exists j :: 0 <= j < |Ranges(n, goroutines)| &&
                        Ranges(n, goroutines)[j].lo <= x < Ranges(n, goroutines)[j].hi
    ensures forall i, j ::
              0 <= i < |Ranges(n, goroutines)| && 0 <= j < |Ranges(n, goroutines)| &&
              Ranges(n, goroutines)[i].lo <= x < Ranges(n, goroutines)[i].hi &&
              Ranges(n, goroutines)[j].lo <= x < Ranges(n, goroutines)[j].hi
              ==> i == j
  {
    var rs := Ranges(n, goroutines);
    RangesChain(n, goroutines);
    var j := ChainCovers(rs, n, x);
    forall i, k | 0 <= i < |rs| && 0 <= k < |rs| && rs[i].lo <= x < rs[i].hi && rs[k].lo <= x < rs[k].hi
      ensures i == k
    {
      ChainDisjoint(rs, n, x, i, k);
    }
  }

  // ----- what the workers compute -----

  /** The slice each range selects. */
  function Slices<T>(s: seq<T>, rs: seq<Range>): (parts: seq<seq<T>>)
    requires forall j :: 0 <= j < |rs| ==> 0 <= rs[j].lo <= rs[j].hi <= |s|
    ensures |parts| == |rs|
  {
    seq(|rs|, j requires 0 <= j < |rs| => s[rs[j].lo..rs[j].hi])
  }

  function Flatten<T>(parts: seq<seq<T>>): seq<T>
  {
    if parts == [] then [] else parts[0] + Flatten(parts[1..])
  }

  lemma {:induction false} FlattenAppend<T>(a: seq<seq<T>>, b: seq<seq<T>>)
    ensures Flatten(a + b) == Flatten(a) + Flatten(b)
  {
    if a != [] {
      assert (a + b)[1..] == a[1..] + b;
      FlattenAppend(a[1..], b);
    } else {
      assert a + b == b;
    }
  }

  /** Ranges within [0, n), each beginning where the previous one ends. */
  ghost predicate Adjacent(rs: seq<Range>, n: nat)
  {
    && (forall j :: 0 <= j < |rs| ==> 0 <= rs[j].lo <= rs[j].hi <= n)
    && (forall j :: 0 <= j < |rs| - 1 ==> rs[j].hi == rs[j + 1].lo)
  }

  lemma {:induction false} AdjacentFlatten<T>(s: seq<T>, rs: seq<Range>)
    requires |rs| >= 1 && Adjacent(rs, |s|)
    ensures rs[0].lo <= rs[|rs| - 1].hi
    ensures Flatten(Slices(s, rs)) == s[rs[0].lo..rs[|rs| - 1].hi]
    decreases |rs|
  {
    var parts := Slices(s, rs);
    if |rs| == 1 {
      assert Flatten(parts) == parts[0] + Flatten(parts[1..]);
    } else {
      AdjacentFlatten(s, rs[1..]);
      assert Slices(s, rs[1..]) == parts[1..];
      var lo, mid, hi := rs[0].lo, rs[0].hi, rs[|rs| - 1].hi;
      assert s[lo..hi] == s[lo..mid] + s[mid..hi];
    }
  }

  /** The slices of a chain, put back together in order, are the whole sequence. */
  lemma ChainFlatten<T>(s: seq<T>, rs: seq<Range>)
    requires Chain(rs, |s|)
    ensures Flatten(Slices(s, rs)) == s
  {
    AdjacentFlatten(s, rs);
    assert s[0..|s|] == s;
  }

  /** The sum of f over a sequence, accumulated left to right. */
  function SumOf<T>(s: seq<T>, f: T -> int): int
  {
    if s == [] then 0 else SumOf(s[..|s| - 1], f) + f(s[|s| - 1])
  }

  lemma {:induction false} SumOfAppend<T>(a: seq<T>, b: seq<T>, f: T -> int)
    ensures SumOf(a + b, f) == SumOf(a, f) + SumOf(b, f)
    decreases |b|
  {
    if b != [] {
      assert (a + b)[..|a + b| - 1] == a + b[..|b| - 1];
      SumOfAppend(a, b[..|b| - 1], f);
    } else {
      assert a + b == a;
    }
  }

  /** Replacing one element changes the sum by the difference of its terms. */
  lemma SumOfUpdate<T>(s: seq<T>, k: nat, x: T, f: T -> int)
    requires k < |s|
    ensures SumOf(s[k := x], f) == SumOf(s, f) - f(s[k]) + f(x)
  {
    assert s == s[..k] + [s[k]] + s[k + 1..];
    assert s[k := x] == s[..k] + [x] + s[k + 1..];
    SumOfAppend(s[..k] + [s[k]], s[k + 1..], f);
    SumOfAppend(s[..k] + [x], s[k + 1..], f);
    SumOfAppend(s[..k], [s[k]], f);
    SumOfAppend(s[..k], [x], f);
    assert SumOf([x], f) == f(x) by { assert [x][..0] == []; }
    assert SumOf([s[k]], f) == f(s[k]) by { assert [s[k]][..0] == []; }
  }

  function Amount(p: Payment): int { p.amount }

  /** The mathematical total of the amounts (no wrap-around). */
  function Total(ps: seq<Payment>): int
  {
    SumOf(ps, Amount)
  }

  /** The payments the predicate keeps, in their original order. */
  function Filter(ps: seq<Payment>, keep: Payment -> bool): (r: seq<Payment>)
  {
    if ps == [] then []
    else Filter(ps[..|ps| - 1], keep) + (if keep(ps[|ps| - 1]) then [ps[|ps| - 1]] else [])
  }

  /** Filter keeps exactly the payments satisfying the predicate, each as many
      times as it occurs. */
  lemma {:induction false} FilterMultiset(ps: seq<Payment>, keep: Payment -> bool, p: Payment)
    ensures multiset(Filter(ps, keep))[p] == if keep(p) then multiset(ps)[p] else 0
  {
    if ps != [] {
      FilterMultiset(ps[..|ps| - 1], keep, p);
      assert ps == ps[..|ps| - 1] + [ps[|ps| - 1]];
    }
  }

  lemma {:induction false} FilterAppend(a: seq<Payment>, b: seq<Payment>, keep: Payment -> bool)
    ensures Filter(a + b, keep) == Filter(a, keep) + Filter(b, keep)
    decreases |b|
  {
    if b != [] {
      assert (a + b)[..|a + b| - 1] == a + b[..|b| - 1];
      FilterAppend(a, b[..|b| - 1], keep);
    } else {
      assert a + b == a;
    }
  }

  // ----- order-independence of the merge -----

  function SumInts(xs: seq<int>): int
  {
    if xs == [] then 0 else xs[0] + SumInts(xs[1..])
  }

  lemma {:induction false} SumIntsAppend(a: seq<int>, b: seq<int>)
    ensures SumInts(a + b) == SumInts(a) + SumInts(b)
  {
    if a != [] {
      assert (a + b)[1..] == a[1..] + b;
      SumIntsAppend(a[1..], b);
    } else {
      assert a + b == b;
    }
  }

  /** Removing matching elements from two sequences with the same multiset
      leaves sequences with the same multiset. */
  lemma MultisetRemove<T>(xs: seq<T>, ys: seq<T>, i: nat)
    requires xs != [] && i < |ys| && ys[i] == xs[0]
    requires multiset(xs) == multiset(ys)
    ensures multiset(xs[1..]) == multiset(ys[..i] + ys[i + 1..])
  {
    var rest := ys[..i] + ys[i + 1..];
    assert ys == ys[..i] + [ys[i]] + ys[i + 1..];
    assert xs == [xs[0]] + xs[1..];
    assert multiset(ys) == multiset(ys[..i]) + multiset([ys[i]]) + multiset(ys[i + 1..]);
    assert multiset(xs) == multiset([xs[0]]) + multiset(xs[1..]);
    assert multiset(rest) == multiset(ys[..i]) + multiset(ys[i + 1..]);
    forall z ensures multiset(xs[1..])[z] == multiset(rest)[z] {
      assert multiset(xs)[z] == multiset(ys)[z];
    }
  }

  /** Merging partial sums in any completion order gives the same total: the
      sum depends only on the multiset of partial results. */
  lemma {:induction false} SumIntsReorder(xs: seq<int>, ys: seq<int>)
    requires multiset(xs) == multiset(ys)
    ensures SumInts(xs) == SumInts(ys)
    decreases |xs|
  {
    if xs != [] {
      assert xs[0] in multiset(ys);
      var i :| 0 <= i < |ys| && ys[i] == xs[0];
      var rest := ys[..i] + ys[i + 1..];
      MultisetRemove(xs, ys, i);
      SumIntsReorder(xs[1..], rest);
      assert SumInts(ys) == ys[i] + SumInts(rest) by {
        assert ys == ys[..i] + [ys[i]] + ys[i + 1..];
        SumIntsAppend(ys[..i] + [ys[i]], ys[i + 1..]);
        SumIntsAppend(ys[..i], [ys[i]]);
        SumIntsAppend(ys[..i], ys[i + 1..]);
      }
    }
  }

  /** Appending the workers' filtered parts to the result in any completion
      order gives the same multiset of payments. */
  lemma {:induction false} FlattenReorder<T>(parts: seq<seq<T>>, order: seq<seq<T>>)
    requires multiset(parts) == multiset(order)
    ensures multiset(Flatten(parts)) == multiset(Flatten(order))
    decreases |parts|
  {
    if parts != [] {
      assert parts[0] in multiset(order);
      var i :| 0 <= i < |order| && order[i] == parts[0];
      var rest := order[..i] + order[i + 1..];
      MultisetRemove(parts, order, i);
      FlattenReorder(parts[1..], rest);
      assert multiset(Flatten(order)) == multiset(order[i]) + multiset(Flatten(rest)) by {
        assert order == order[..i] + [order[i]] + order[i + 1..];
        FlattenAppend(order[..i] + [order[i]], order[i + 1..]);
        FlattenAppend(order[..i], [order[i]]);
        FlattenAppend(order[..i], order[i + 1..]);
        assert Flatten([order[i]]) == order[i];
      }
    }
  }

  /** The partial sum of each worker, in worker order. */
  function PartialSums(ps: seq<Payment>, rs: seq<Range>): (sums: seq<int>)
    requires Chain(rs, |ps|)
    ensures |sums| == |rs|
  {
    var parts := Slices(ps, rs);
    seq(|parts|, j requires 0 <= j < |parts| => Total(parts[j]))
  }

  /** The filtered part of each worker, in worker order. */
  function FilteredParts(ps: seq<Payment>, rs: seq<Range>, keep: Payment -> bool): (fs: seq<seq<Payment>>)
    requires Chain(rs, |ps|)
    ensures |fs| == |rs|
  {
    var parts := Slices(ps, rs);
    seq(|parts|, j requires 0 <= j < |parts| => Filter(parts[j], keep))
  }

  /** Whatever the worker count and whatever order the workers merge their
      partial sums in, the merged total is the sequential total. */
  lemma PartitionedSum(ps: seq<Payment>, goroutines: Int64)
    requires |ps| <= MaxInt64
    ensures Chain(Ranges(|ps|, goroutines), |ps|)
    ensures forall merged: seq<int> | multiset(merged) == multiset(PartialSums(ps, Ranges(|ps|, goroutines))) ::
              SumInts(merged) == Total(ps)
  {
    var rs := Ranges(|ps|, goroutines);
    RangesChain(|ps|, goroutines);
    var parts := Slices(ps, rs);
    ChainFlatten(ps, rs);
    TotalOfParts(parts);
    forall merged: seq<int> | multiset(merged) == multiset(PartialSums(ps, rs))
      ensures SumInts(merged) == Total(ps)
    {
      SumIntsReorder(PartialSums(ps, rs), merged);
    }
  }

  /** The partial sums as the workers hand them over: each `val` is an int64. */
  function Wrapped(xs: seq<int>): (ws: seq<int>)
    ensures |ws| == |xs|
    ensures forall j :: 0 <= j < |xs| ==> ws[j] == Wrap64(xs[j])
  {
    seq(|xs|, j requires 0 <= j < |xs| => Wrap64(xs[j]))
  }

  /** The shared `sum` after `sum += val` for each value in turn, in int64. */
  function WrapSum(xs: seq<int>): Int64
  {
    if xs == [] then 0 else Wrap64(WrapSum(xs[..|xs| - 1]) + xs[|xs| - 1])
  }

  /** Adding in int64 step by step gives the int64 value of the exact sum. */
  lemma {:induction false} WrapSumExact(xs: seq<int>)
    ensures WrapSum(xs) == Wrap64(SumInts(xs))
  {
    if xs != [] {
      var init, last := xs[..|xs| - 1], xs[|xs| - 1];
      WrapSumExact(init);
      assert xs == init + [last];
      SumIntsAppend(init, [last]);
      assert SumInts([last]) == last + SumInts([]);
      WrapAdd(SumInts(init), last);
    }
  }

  /** Wrapping each value before adding does not change the int64 sum. */
  lemma {:induction false} SumIntsWrapped(xs: seq<int>)
    ensures Wrap64(SumInts(Wrapped(xs))) == Wrap64(SumInts(xs))
  {
    if xs != [] {
      var ws := Wrapped(xs);
      assert ws[1..] == Wrapped(xs[1..]);
      SumIntsWrapped(xs[1..]);
      WrapShift(SumInts(ws[1..]), SumInts(xs[1..]), xs[0]);
      assert SumInts(ws) == SumInts(ws[1..]) + ws[0];
    }
  }

  /** What SumPayments returns, for every worker count and every order in
      which the workers take the mutex: adding their int64 partial sums into
      `sum` in int64 gives the int64 total of all amounts. */
  lemma PartitionedWrappedSum(ps: seq<Payment>, goroutines: Int64)
    requires |ps| <= MaxInt64
    ensures Chain(Ranges(|ps|, goroutines), |ps|)
    ensures forall merged: seq<int> |
              multiset(merged) == multiset(Wrapped(PartialSums(ps, Ranges(|ps|, goroutines)))) ::
              WrapSum(merged) == Wrap64(Total(ps))
  {
    PartitionedSum(ps, goroutines);
    var sums := PartialSums(ps, Ranges(|ps|, goroutines));
    SumIntsWrapped(sums);
    assert Wrap64(SumInts(Wrapped(sums))) == Wrap64(Total(ps));
    forall merged: seq<int> | multiset(merged) == multiset(Wrapped(sums))
      ensures WrapSum(merged) == Wrap64(Total(ps))
    {
      SumIntsReorder(Wrapped(sums), merged);
      WrapSumExact(merged);
    }
  }

  /** Whatever the worker count and whatever order the workers append their
      filtered parts in, the result holds exactly the payments the predicate
      keeps, each as often as in the store. */
  lemma PartitionedFilter(ps: seq<Payment>, goroutines: Int64, keep: Payment -> bool)
    requires |ps| <= MaxInt64
    ensures Chain(Ranges(|ps|, goroutines), |ps|)
    ensures forall merged: seq<seq<Payment>> |
              multiset(merged) == multiset(FilteredParts(ps, Ranges(|ps|, goroutines), keep)) ::
              multiset(Flatten(merged)) == multiset(Filter(ps, keep))
  {
    var rs := Ranges(|ps|, goroutines);
    RangesChain(|ps|, goroutines);
    var parts := Slices(ps, rs);
    ChainFlatten(ps, rs);
    FilterOfParts(parts, keep);
    assert FilteredParts(ps, rs, keep) == seq(|parts|, j requires 0 <= j < |parts| => Filter(parts[j], keep));
    forall merged: seq<seq<Payment>> | multiset(merged) == multiset(FilteredParts(ps, rs, keep))
      ensures multiset(Flatten(merged)) == multiset(Filter(ps, keep))
    {
      FlattenReorder(FilteredParts(ps, rs, keep), merged);
    }
  }

  lemma {:induction false} TotalOfParts(parts: seq<seq<Payment>>)
    ensures Total(Flatten(parts)) == SumInts(seq(|parts|, j requires 0 <= j < |parts| => Total(parts[j])))
    decreases |parts|
  {
    if parts != [] {
      SumOfAppend(parts[0], Flatten(parts[1..]), Amount);
      TotalOfParts(parts[1..]);
      var sums := seq(|parts|, j requires 0 <= j < |parts| => Total(parts[j]));
      assert sums[1..] == seq(|parts| - 1, j requires 0 <= j < |parts| - 1 => Total(parts[1..][j]));
    }
  }

  lemma {:induction false} FilterOfParts(parts: seq<seq<Payment>>, keep: Payment -> bool)
    ensures Filter(Flatten(parts), keep) == Flatten(seq(|parts|, j requires 0 <= j < |parts| => Filter(parts[j], keep)))
    decreases |parts|
  {
    if parts != [] {
      FilterAppend(parts[0], Flatten(parts[1..]), keep);
      FilterOfParts(parts[1..], keep);
      var fs := seq(|parts|, j requires 0 <= j < |parts| => Filter(parts[j], keep));
      assert fs[1..] == seq(|parts| - 1, j requires 0 <= j < |parts| - 1 => Filter(parts[1..][j], keep));
    }
  }
}
