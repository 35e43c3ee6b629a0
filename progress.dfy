/** SumPaymentsWithProgress (pkg/wallet/service.go:789-821): the payments are
    summed by one worker per unit of SizeOfUnit payments, and each worker sends
    one Progress record (how many payments it summed, and their int64 sum).

    As written, every worker is handed the whole `s.payments` slice, so with
    two units or more every payment is counted once per worker. WholeSlice
    models that, and is what WalletService.Service.SumPaymentsWithProgress
    computes; Chunked is the split the method's own comment describes. */
module ProgressSum {
  import opened Types
  import opened Partition

  /** `sizeOfUnit := 100_0000`: one million payments per worker. */
  const SizeOfUnit: nat := 1_000_000

  /** `len(s.payments) / sizeOfUnit`, raised to 1 when it is 0 or 1. */
  function Goroutines(n: nat): (g: nat)
    ensures g >= 1
    ensures g == 1 <==> n < 2 * SizeOfUnit
    ensures g * SizeOfUnit <= n || g == 1
  {
    if n / SizeOfUnit <= 1 then 1 else n / SizeOfUnit
  }

  function Part(r: Progress): int { r.part }
  function Result(r: Progress): int { r.result }

  /** How many payments the records claim to cover, altogether. */
  function PartsTotal(records: seq<Progress>): int { SumOf(records, Part) }

  /** The sum of the records' results (before int64 wrap-around). */
  function ResultsTotal(records: seq<Progress>): int { SumOf(records, Result) }

  /** The records as the source builds them: Goroutines(n) workers, each of
      which sums the whole slice. */
  function WholeSlice(ps: seq<Payment>): (records: seq<Progress>)
    ensures |records| == Goroutines(|ps|)
  {
    seq(Goroutines(|ps|), j => Progress(|ps|, Wrap64(Total(ps))))
  }

  /** The records of WholeSlice all coincide, and together they claim to cover
      every payment once per worker. */
  lemma {:induction false} WholeSliceCounts(ps: seq<Payment>, w: nat)
    requires w <= Goroutines(|ps|)
    ensures var records := WholeSlice(ps)[..w];
            && PartsTotal(records) == w * |ps|
            && ResultsTotal(records) == w * Wrap64(Total(ps))
  {
    if w > 0 {
      var records := WholeSlice(ps)[..w];
      assert records[..w - 1] == WholeSlice(ps)[..w - 1];
      WholeSliceCounts(ps, w - 1);
    }
  }

  /** The discrepancy: from two million payments on, the records cover more
      payments than there are, and a consumer adding the results counts the
      total several times. */
  lemma WholeSliceOvercounts(ps: seq<Payment>)
    requires |ps| >= 2 * SizeOfUnit
    ensures PartsTotal(WholeSlice(ps)) == Goroutines(|ps|) * |ps| > |ps|
    ensures ResultsTotal(WholeSlice(ps)) == Goroutines(|ps|) * Wrap64(Total(ps))
  {
    WholeSliceCounts(ps, Goroutines(|ps|));
    assert WholeSlice(ps)[..Goroutines(|ps|)] == WholeSlice(ps);
    MulMonotone(2, Goroutines(|ps|), |ps|);
  }

  /** Below two units there is one worker, and the source's record is right. */
  lemma WholeSliceSmall(ps: seq<Payment>)
    requires |ps| < 2 * SizeOfUnit
    ensures WholeSlice(ps) == [Progress(|ps|, Wrap64(Total(ps)))]
  {
  }

  /** The intended split: Goroutines(n) consecutive units of SizeOfUnit
      payments, the last one taking the rest. */
  function UnitRanges(n: nat): (rs: seq<Range>)
    ensures Chain(rs, n)
    ensures |rs| == Goroutines(n)
  {
    ContiguousChain(n, Goroutines(n), SizeOfUnit);
    Contiguous(n, Goroutines(n), SizeOfUnit)
  }

  /** The record of one worker for the payments `ps[r.lo..r.hi]`. */
  function ChunkRecord(ps: seq<Payment>, r: Range): (record: Progress)
    requires 0 <= r.lo <= r.hi <= |ps|
  {
    Progress(r.hi - r.lo, Wrap64(Total(ps[r.lo..r.hi])))
  }

  /** The records of the corrected method, in worker order. */
  function Chunked(ps: seq<Payment>): (records: seq<Progress>)
    ensures |records| == Goroutines(|ps|)
  {
    var rs := UnitRanges(|ps|);
    seq(|rs|, j requires 0 <= j < |rs| => ChunkRecord(ps, rs[j]))
  }

  /** The corrected records cover every payment exactly once, and adding their
      results in int64 gives the int64 sum of all payments. */
  lemma ChunkedCovers(ps: seq<Payment>)
    ensures PartsTotal(Chunked(ps)) == |ps|
    ensures Wrap64(ResultsTotal(Chunked(ps))) == Wrap64(Total(ps))
  {
    var rs := UnitRanges(|ps|);
    ChunkedPrefix(ps, rs, |rs|);
    assert Chunked(ps)[..|rs|] == Chunked(ps);
    assert ps[..rs[|rs| - 1].hi] == ps;
  }

  /** The first w corrected records cover `ps[..rs[w-1].hi]`. */
  lemma {:induction false} ChunkedPrefix(ps: seq<Payment>, rs: seq<Range>, w: nat)
    requires rs == UnitRanges(|ps|)
    requires w <= |rs|
    ensures var end := if w == 0 then 0 else rs[w - 1].hi;
            && PartsTotal(Chunked(ps)[..w]) == end
            && Wrap64(ResultsTotal(Chunked(ps)[..w])) == Wrap64(Total(ps[..end]))
  {
    if w > 0 {
      ChunkedPrefix(ps, rs, w - 1);
      var records := Chunked(ps)[..w];
      var lo, hi := rs[w - 1].lo, rs[w - 1].hi;
      var prev := Chunked(ps)[..w - 1];
      var t := Total(ps[lo..hi]);
      assert lo == if w == 1 then 0 else rs[w - 2].hi;
      assert PartsTotal(records) == PartsTotal(prev) + (hi - lo)
          && ResultsTotal(records) == ResultsTotal(prev) + Wrap64(t) by {
        assert records[..w - 1] == prev;
        assert records[w - 1] == Progress(hi - lo, Wrap64(t));
      }
      assert Total(ps[..hi]) == Total(ps[..lo]) + t by {
        assert ps[..hi] == ps[..lo] + ps[lo..hi];
        SumOfAppend(ps[..lo], ps[lo..hi], Amount);
      }
      WrapShift(ResultsTotal(prev), Total(ps[..lo]), t);
    }
  }
}
