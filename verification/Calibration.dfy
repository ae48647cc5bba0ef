/** Percentile calibration of raw scores against a user's own enrollment distribution. */
module Calibration {
  import opened Wrappers

  datatype CalibrationError = NoReference

  function InsertScore(x: real, xs: seq<real>): seq<real> {
    if xs == [] || x <= xs[0] then [x] + xs else [xs[0]] + InsertScore(x, xs[1..])
  }

  function SortScores(xs: seq<real>): seq<real> {
    if xs == [] then [] else InsertScore(xs[0], SortScores(xs[1..]))
  }

  ghost predicate Ascending(xs: seq<real>) {
    forall i, j :: 0 <= i < j < |xs| ==> xs[i] <= xs[j]
  }

  ghost predicate AllAbove(low: real, xs: seq<real>) {
    forall i :: 0 <= i < |xs| ==> low <= xs[i]
  }

  lemma {:induction false} InsertAbove(low: real, x: real, xs: seq<real>)
    requires low <= x && AllAbove(low, xs)
    ensures AllAbove(low, InsertScore(x, xs))
  {
    if xs != [] && xs[0] < x {
      InsertAbove(low, x, xs[1..]);
    }
  }

  lemma {:induction false} InsertKeepsAscending(x: real, xs: seq<real>)
    requires Ascending(xs)
    ensures Ascending(InsertScore(x, xs))
  {
    if xs != [] && xs[0] < x {
      InsertKeepsAscending(x, xs[1..]);
      InsertAbove(xs[0], x, xs[1..]);
    }
  }

  /** A fitted calibrator is ready to transform. */
  lemma {:induction false} FittedIsSorted(scores: seq<real>)
    ensures Ascending(SortScores(scores))
  {
    if scores != [] {
      FittedIsSorted(scores[1..]);
      InsertKeepsAscending(scores[0], SortScores(scores[1..]));
    }
  }

  // The library's right insertion point in a sorted array.
  ghost predicate IsInsertionPoint(reference: seq<real>, x: real, rank: nat) {
    && rank <= |reference|
    && (forall i :: 0 <= i < rank ==> reference[i] <= x)
    && (forall i :: rank <= i < |reference| ==> reference[i] > x)
  }

  function Percentile(rank: nat, size: nat): real
    requires size > 0
  {
    rank as real / size as real * 100.0
  }

  function CountAtMost(scores: seq<real>, x: real): nat {
    if scores == [] then 0
    else CountAtMost(scores[..|scores| - 1], x) + if scores[|scores| - 1] <= x then 1 else 0
  }

  /** The calibrator keeps the sorted enrollment scores. */
  class PercentileCalibrator {
    const reference: seq<real>

    constructor (scores: seq<real>)
      ensures reference == SortScores(scores)
    {
      reference := SortScores(scores);
    }

    static method Fit(scores: seq<real>) returns (result: Result<PercentileCalibrator, CalibrationError>)
      ensures result.Err? <==> scores == []
      ensures result.Ok? ==> result.value.reference == SortScores(scores)
    {
      if scores == [] {
        return Err(NoReference);
      }
      var calibrator := new PercentileCalibrator(scores);
      return Ok(calibrator);
    }

    // One score; the rank is found as the library's binary search finds it.
    method Transform(x: real) returns (result: Result<real, CalibrationError>)
      requires Ascending(reference)
      ensures result.Err? <==> reference == []
      ensures result.Ok? ==> result.value == Percentile(CountAtMost(reference, x), |reference|)
    {
      if reference == [] {
        return Err(NoReference);
      }
      var low, high := 0, |reference|;
      while low < high
        invariant 0 <= low <= high <= |reference|
        invariant forall i :: 0 <= i < low ==> reference[i] <= x
        invariant forall i :: high <= i < |reference| ==> reference[i] > x
      {
        var middle := (low + high) / 2;
        if reference[middle] <= x {
          low := middle + 1;
        } else {
          high := middle;
        }
      }
      InsertionPointCounts(reference, x, low);
      return Ok(Percentile(low, |reference|));
    }
  }

  lemma {:induction false} InsertionPointCounts(reference: seq<real>, x: real, rank: nat)
    requires IsInsertionPoint(reference, x, rank)
    ensures rank == CountAtMost(reference, x)
    decreases |reference|
  {
    if reference != [] {
      var before := reference[..|reference| - 1];
      InsertionPointCounts(before, x, if rank == |reference| then rank - 1 else rank);
    }
  }

  // ---------------------------------------------------------------------
  // What the percentile means
  // ---------------------------------------------------------------------

  lemma {:induction false} CountIsBounded(scores: seq<real>, x: real)
    ensures CountAtMost(scores, x) <= |scores|
    ensures CountAtMost(scores, x) == |scores| <==> forall i :: 0 <= i < |scores| ==> scores[i] <= x
    ensures CountAtMost(scores, x) == 0 <==> forall i :: 0 <= i < |scores| ==> scores[i] > x
  {
    if scores != [] {
      CountIsBounded(scores[..|scores| - 1], x);
    }
  }

  lemma {:induction false} CountIsMonotone(scores: seq<real>, x: real, y: real)
    requires x <= y
    ensures CountAtMost(scores, x) <= CountAtMost(scores, y)
  {
    if scores != [] {
      CountIsMonotone(scores[..|scores| - 1], x, y);
    }
  }

  lemma {:induction false} CountOfAppend(a: seq<real>, b: seq<real>, x: real)
    ensures CountAtMost(a + b, x) == CountAtMost(a, x) + CountAtMost(b, x)
    decreases |b|
  {
    if b == [] {
      assert a + b == a;
    } else {
      CountOfAppend(a, b[..|b| - 1], x);
      assert (a + b)[..|a + b| - 1] == a + b[..|b| - 1];
    }
  }

  lemma {:induction false} CountOfInsert(y: real, xs: seq<real>, x: real)
    ensures CountAtMost(InsertScore(y, xs), x) == CountAtMost(xs, x) + if y <= x then 1 else 0
  {
    CountOfOne(y, x);
    if xs == [] || y <= xs[0] {
      CountOfAppend([y], xs, x);
    } else {
      CountOfInsert(y, xs[1..], x);
      CountOfAppend([xs[0]], InsertScore(y, xs[1..]), x);
      CountOfAppend([xs[0]], xs[1..], x);
      assert xs == [xs[0]] + xs[1..];
    }
  }

  lemma CountOfOne(y: real, x: real)
    ensures CountAtMost([y], x) == if y <= x then 1 else 0
  {
    assert [y][..0] == [];
  }

  /** Fitting does not change how many enrollment scores a score is at or above. */
  lemma {:induction false} FittingKeepsCounts(scores: seq<real>, x: real)
    ensures CountAtMost(SortScores(scores), x) == CountAtMost(scores, x) && |SortScores(scores)| == |scores|
  {
    if scores != [] {
      FittingKeepsCounts(scores[1..], x);
      CountOfInsert(scores[0], SortScores(scores[1..]), x);
      CountOfAppend([scores[0]], scores[1..], x);
      CountOfOne(scores[0], x);
      assert scores == [scores[0]] + scores[1..];
      InsertScoreSize(scores[0], SortScores(scores[1..]));
    }
  }

  lemma {:induction false} InsertScoreSize(x: real, xs: seq<real>)
    ensures |InsertScore(x, xs)| == |xs| + 1
  {
    if xs != [] && xs[0] < x {
      InsertScoreSize(x, xs[1..]);
    }
  }

  function Calibrated(scores: seq<real>, x: real): real
    requires scores != []
  {
    Percentile(CountAtMost(SortScores(scores), x), |SortScores(scores)|)
  }

  lemma PercentileIsMonotone(rank: nat, higher: nat, size: nat)
    requires rank <= higher <= size && size > 0
    ensures 0.0 <= Percentile(rank, size) <= Percentile(higher, size) <= 100.0
  {
    var a, b, n := rank as real, higher as real, size as real;
    QuotientsAreMonotone(a, b, n);
  }

  lemma QuotientsAreMonotone(a: real, b: real, n: real)
    requires 0.0 <= a <= b <= n && 0.0 < n
    ensures 0.0 <= a / n <= b / n <= 1.0
  {
  }

  /** A calibrated score is a percentage, grows with the raw score, and is the share of the
      enrollment scores at or below it, in whatever order these were collected. */
  lemma {:induction false} CalibrationIsARank(scores: seq<real>, permuted: seq<real>, x: real, y: real)
    requires scores != [] && multiset(scores) == multiset(permuted) && x <= y
    ensures 0.0 <= Calibrated(scores, x) <= Calibrated(scores, y) <= 100.0
    ensures Calibrated(scores, x) == Percentile(CountAtMost(scores, x), |scores|)
    ensures permuted != [] && Calibrated(permuted, x) == Calibrated(scores, x)
  {
    FittingKeepsCounts(scores, x);
    FittingKeepsCounts(scores, y);
    FittingKeepsCounts(permuted, x);
    CountIsBounded(scores, y);
    CountIsMonotone(scores, x, y);
    PercentileIsMonotone(CountAtMost(scores, x), CountAtMost(scores, y), |scores|);
    assert |multiset(scores)| == |scores| && |multiset(permuted)| == |permuted|;
    CountsPermute(scores, permuted, x);
  }

  // Taking one element out.
  lemma {:induction false} CountWithout(b: seq<real>, i: nat, x: real)
    requires i < |b|
    ensures CountAtMost(b, x) == CountAtMost(b[..i] + b[i + 1..], x) + if b[i] <= x then 1 else 0
    ensures multiset(b) == multiset(b[..i] + b[i + 1..]) + multiset{b[i]}
  {
    assert b == b[..i] + ([b[i]] + b[i + 1..]);
    CountOfAppend(b[..i], [b[i]] + b[i + 1..], x);
    CountOfAppend([b[i]], b[i + 1..], x);
    CountOfOne(b[i], x);
    CountOfAppend(b[..i], b[i + 1..], x);
  }

  lemma CancelOne(m: multiset<real>, n: multiset<real>, e: real)
    requires m + multiset{e} == n + multiset{e}
    ensures m == n
  {
    assert m == m + multiset{e} - multiset{e} && n == n + multiset{e} - multiset{e};
  }

  lemma {:induction false} CountsPermute(a: seq<real>, b: seq<real>, x: real)
    requires multiset(a) == multiset(b)
    ensures CountAtMost(a, x) == CountAtMost(b, x)
    decreases |a|
  {
    if a == [] {
      assert |multiset(b)| == 0;
    } else {
      assert a[0] in multiset(b);
      var i :| 0 <= i < |b| && b[i] == a[0];
      var restA, restB := a[..0] + a[1..], b[..i] + b[i + 1..];
      CountWithout(a, 0, x);
      CountWithout(b, i, x);
      CancelOne(multiset(restA), multiset(restB), a[0]);
      CountsPermute(restA, restB, x);
    }
  }
}
