/**
 * The free search functions of the peak set: the nearest-peak bisection with its final
 * linear sweep (`_get_nearest_peak`), the relative-error bisection (`binary_search`) and
 * the refinement walk around its hit (`_sweep_solution`).
 *
 * The pure parts work on key sequences: `keys[i]` stands for `getter(array[i])`.
 */
module Search {
  import opened Wrappers
  import opened Peaks

  /** A window narrower than this is swept instead of bisected. */
  const SweepWidth: nat := 5

  /** A midpoint within this absolute distance of the query also ends the bisection. */
  const NearBand: real := 1.0

  /**
   * The relative error of x against y, `ppm_error(x, y)`, taken as (x - y) / y.
   * A zero y would raise ZeroDivisionError; callers rule it out.
   */
  function PpmError(x: real, y: real): real
    requires y != 0.0
  {
    (x - y) / y
  }

  /** The position of the first minimum of e; a later equal value does not replace it. */
  function FirstMin(e: seq<real>): (p: nat)
    requires |e| > 0
    ensures p < |e|
  {
    if |e| == 1 then 0
    else
      var q := FirstMin(e[..|e| - 1]);
      if e[|e| - 1] < e[q] then |e| - 1 else q
  }

  /** FirstMin is a minimum, and every position before it holds a strictly larger value. */
  lemma {:induction false} FirstMinSpec(e: seq<real>)
    requires |e| > 0
    ensures forall i :: 0 <= i < |e| ==> e[FirstMin(e)] <= e[i]
    ensures forall i :: 0 <= i < FirstMin(e) ==> e[FirstMin(e)] < e[i]
  {
    if |e| > 1 {
      var init := e[..|e| - 1];
      FirstMinSpec(init);
      assert forall i :: 0 <= i < |init| ==> init[i] == e[i];
    }
  }

  /** The first minimum is the only position with both of its properties. */
  lemma FirstMinUnique(e: seq<real>, p: nat)
    requires p < |e|
    requires forall i :: 0 <= i < |e| ==> e[p] <= e[i]
    requires forall i :: 0 <= i < p ==> e[p] < e[i]
    ensures p == FirstMin(e)
  {
    FirstMinSpec(e);
  }

  // ---------------------------------------------------------------------------
  // _get_nearest_peak
  // ---------------------------------------------------------------------------

  /**
   * The window `binsearch(lo, hi)` finally sweeps. Narrow windows and windows whose
   * midpoint is within the band of the query are swept; otherwise the search goes to
   * `[lo, mid)` when the midpoint key is above the query (dropping the midpoint) and
   * to `[mid, hi)` otherwise.
   */
  function SweptWindow(keys: seq<real>, q: real, lo: nat, hi: nat): (w: (nat, nat))
    requires lo <= hi <= |keys|
    ensures lo <= w.0 <= w.1 <= hi
    ensures lo < hi ==> w.0 < w.1
    ensures w.1 - w.0 < SweepWidth || Abs(keys[(w.0 + w.1) / 2] - q) < NearBand
    decreases hi - lo
  {
    if hi - lo < SweepWidth then (lo, hi)
    else
      var mid := (hi + lo) / 2;
      if Abs(keys[mid] - q) < NearBand then (lo, hi)
      else if keys[mid] > q then SweptWindow(keys, q, lo, mid)
      else SweptWindow(keys, q, mid, hi)
  }

  /**
   * The index the search of [lo, hi) picks. Bisecting, it narrows the window as
   * SweptWindow does and then sweeps it; sweeping, it is the first index of [lo, hi)
   * with the least distance to q: the pick of [lo, hi - 1), replaced by hi - 1 only
   * when that one is strictly closer.
   */
  function Pick(keys: seq<real>, q: real, lo: nat, hi: nat, sweeping: bool): (k: nat)
    requires lo < hi <= |keys|
    ensures lo <= k < hi
    decreases hi - lo, if sweeping then 0 else 1
  {
    if sweeping then
      if hi - lo == 1 then lo
      else
        var k := Pick(keys, q, lo, hi - 1, true);
        if Abs(keys[hi - 1] - q) < Abs(keys[k] - q) then hi - 1 else k
    else
      var mid := (hi + lo) / 2;
      if hi - lo < SweepWidth || Abs(keys[mid] - q) < NearBand then Pick(keys, q, lo, hi, true)
      else if keys[mid] > q then Pick(keys, q, lo, mid, false)
      else Pick(keys, q, mid, hi, false)
  }

  /** The index `_get_nearest_peak` picks in the whole list. */
  function NearestIndex(keys: seq<real>, q: real): (k: nat)
    requires |keys| > 0
    ensures k < |keys|
  {
    Pick(keys, q, 0, |keys|, false)
  }

  /** Bisecting ends by sweeping exactly the window SweptWindow describes. */
  lemma {:induction false} PickSweepsWindow(keys: seq<real>, q: real, lo: nat, hi: nat)
    requires lo < hi <= |keys|
    ensures var w := SweptWindow(keys, q, lo, hi);
      Pick(keys, q, lo, hi, false) == Pick(keys, q, w.0, w.1, true)
    decreases hi - lo
  {
    var mid := (hi + lo) / 2;
    if hi - lo < SweepWidth || Abs(keys[mid] - q) < NearBand {
    } else if keys[mid] > q {
      PickSweepsWindow(keys, q, lo, mid);
    } else {
      PickSweepsWindow(keys, q, mid, hi);
    }
  }

  /** A sweep picks a first minimum: no index is closer, and every earlier one is farther. */
  lemma {:induction false} SweepIsFirstMin(keys: seq<real>, q: real, lo: nat, hi: nat)
    requires lo < hi <= |keys|
    ensures var k := Pick(keys, q, lo, hi, true);
      && (forall i :: lo <= i < hi ==> Abs(keys[k] - q) <= Abs(keys[i] - q))
      && (forall i :: lo <= i < k ==> Abs(keys[k] - q) < Abs(keys[i] - q))
    decreases hi - lo
  {
    if hi - lo > 1 {
      SweepIsFirstMin(keys, q, lo, hi - 1);
    }
  }

  /** The first minimum of a window is the only index with both of its properties. */
  lemma SweepUnique(keys: seq<real>, q: real, lo: nat, hi: nat, k: nat)
    requires lo <= k < hi <= |keys|
    requires forall i :: lo <= i < hi ==> Abs(keys[k] - q) <= Abs(keys[i] - q)
    requires forall i :: lo <= i < k ==> Abs(keys[k] - q) < Abs(keys[i] - q)
    ensures Pick(keys, q, lo, hi, true) == k
  {
    SweepIsFirstMin(keys, q, lo, hi);
  }

  /** NearestIndex is the first minimum of the distances to q over the swept window. */
  lemma NearestIndexSpec(keys: seq<real>, q: real)
    requires |keys| > 0
    ensures var w := SweptWindow(keys, q, 0, |keys|);
      var k := NearestIndex(keys, q);
      && w.0 <= k < w.1
      && (forall i :: w.0 <= i < w.1 ==> Abs(keys[k] - q) <= Abs(keys[i] - q))
      && (forall i :: w.0 <= i < k ==> Abs(keys[k] - q) < Abs(keys[i] - q))
  {
    var w := SweptWindow(keys, q, 0, |keys|);
    PickSweepsWindow(keys, q, 0, |keys|);
    SweepIsFirstMin(keys, q, w.0, w.1);
  }

  /** An index of the swept window that is its first minimum is NearestIndex. */
  lemma NearestIndexIs(keys: seq<real>, q: real, k: nat)
    requires |keys| > 0
    requires var w := SweptWindow(keys, q, 0, |keys|);
      && w.0 <= k < w.1
      && (forall i :: w.0 <= i < w.1 ==> Abs(keys[k] - q) <= Abs(keys[i] - q))
      && (forall i :: w.0 <= i < k ==> Abs(keys[k] - q) < Abs(keys[i] - q))
    ensures NearestIndex(keys, q) == k
  {
    var w := SweptWindow(keys, q, 0, |keys|);
    PickSweepsWindow(keys, q, 0, |keys|);
    SweepUnique(keys, q, w.0, w.1, k);
  }

  /** Below the sweep width the whole list is swept: the answer is the global first minimum. */
  lemma NearestSmallIsGlobal(keys: seq<real>, q: real)
    requires 0 < |keys| < SweepWidth
    ensures var k := NearestIndex(keys, q);
      && (forall i :: 0 <= i < |keys| ==> Abs(keys[k] - q) <= Abs(keys[i] - q))
      && (forall i :: 0 <= i < k ==> Abs(keys[k] - q) < Abs(keys[i] - q))
  {
    assert SweptWindow(keys, q, 0, |keys|) == (0, |keys|);
    NearestIndexSpec(keys, q);
  }

  /**
   * Not globally nearest: on eight sorted keys the midpoint 10.0 is above the query 8.0
   * and outside the band, so the search drops it and returns 3.0, which is farther.
   */
  lemma NearestNotGlobal()
    ensures var keys := [0.0, 1.0, 2.0, 3.0, 10.0, 11.0, 12.0, 13.0];
      && NearestIndex(keys, 8.0) == 3
      && Abs(keys[4] - 8.0) < Abs(keys[NearestIndex(keys, 8.0)] - 8.0)
  {
    var keys := [0.0, 1.0, 2.0, 3.0, 10.0, 11.0, 12.0, 13.0];
    assert SweptWindow(keys, 8.0, 0, 4) == (0, 4);
    assert SweptWindow(keys, 8.0, 0, 8) == (0, 4);
    var k := NearestIndex(keys, 8.0);
    assert Abs(keys[k] - 8.0) <= Abs(keys[3] - 8.0);
  }

  /**
   * The nested `sweep(lo, hi)`: the first index of [lo, hi) with the least absolute
   * error and that error, or None for an empty window (where `_sweep` then fails
   * indexing with None).
   */
  method Sweep(keys: seq<real>, q: real, lo: nat, hi: nat) returns (best: Option<(nat, real)>)
    requires lo <= hi <= |keys|
    ensures best.None? <==> lo == hi
    ensures best.Some? ==> var k := best.value.0;
      && lo <= k < hi && best.value.1 == Abs(keys[k] - q)
      && (forall i :: lo <= i < hi ==> Abs(keys[k] - q) <= Abs(keys[i] - q))
      && (forall i :: lo <= i < k ==> Abs(keys[k] - q) < Abs(keys[i] - q))
  {
    var bestError: Option<real> := None;
    var bestIndex: nat := lo;
    for i := lo to hi
      invariant bestError.None? <==> i == lo
      invariant bestError.Some? ==>
        && lo <= bestIndex < i && bestError.value == Abs(keys[bestIndex] - q)
        && (forall j :: lo <= j < i ==> Abs(keys[bestIndex] - q) <= Abs(keys[j] - q))
        && (forall j :: lo <= j < bestIndex ==> Abs(keys[bestIndex] - q) < Abs(keys[j] - q))
    {
      var err := Abs(keys[i] - q);
      if bestError.None? || err < bestError.value {
        bestError := Some(err);
        bestIndex := i;
      }
    }
    if bestError.None? {
      best := None;
    } else {
      best := Some((bestIndex, bestError.value));
    }
  }

  /** The key a lookup with or without `use_mz` orders by. */
  function KeyFor(useMz: bool): (k: Key)
    ensures k == Mz <==> useMz
  {
    if useMz then Mz else NeutralMass
  }

  /**
   * `_get_nearest_peak(peaklist, neutral_mass, use_mz)`: the peak at NearestIndex and its
   * absolute error. An empty list fails with TypeError.
   */
  method GetNearestPeak(peaklist: seq<DeconvolutedPeak>, neutralMass: real, useMz: bool)
    returns (r: Result<(DeconvolutedPeak, real)>)
    ensures r.Err? <==> |peaklist| == 0
    ensures r.Err? ==> r.error == TypeError
    ensures r.Ok? ==>
      && r.value.0 == peaklist[NearestIndex(Keys(peaklist, KeyFor(useMz)), neutralMass)]
      && r.value.0 in peaklist
      && r.value.1 == Abs(KeyOf(r.value.0, KeyFor(useMz)) - neutralMass)
  {
    var keys := Keys(peaklist, KeyFor(useMz));
    var w := SweptWindow(keys, neutralMass, 0, |keys|);
    var best := Sweep(keys, neutralMass, w.0, w.1);
    if best.None? {
      r := Err(TypeError);
    } else {
      var k := best.value.0;
      NearestIndexIs(keys, neutralMass, k);
      r := Ok((peaklist[k], best.value.1));
    }
  }

  // ---------------------------------------------------------------------------
  // _sweep_solution
  // ---------------------------------------------------------------------------

  /** No key is zero, so every relative error against a key is defined. */
  predicate NonZero(keys: seq<real>)
  {
    forall i :: 0 <= i < |keys| ==> keys[i] != 0.0
  }

  /** The error the refinement walk measures at i: `abs(ppm_error(value, keys[i]))`. */
  function RelError(keys: seq<real>, value: real, i: nat): real
    requires i < |keys| && NonZero(keys)
  {
    Abs(PpmError(value, keys[i]))
  }

  /** The relative errors at the positions c. */
  function RelErrors(keys: seq<real>, value: real, c: seq<nat>): (e: seq<real>)
    requires NonZero(keys) && forall k :: 0 <= k < |c| ==> c[k] < |keys|
    ensures |e| == |c| && forall k :: 0 <= k < |c| ==> e[k] == RelError(keys, value, c[k])
  {
    seq(|c|, k requires 0 <= k < |c| => RelError(keys, value, c[k]))
  }

  /**
   * Where the downward walk from j stops: [s, j] are all within tolerance, and s - 1,
   * when it exists, is the candidate that ended the walk.
   */
  function DownStart(keys: seq<real>, value: real, tolerance: real, j: int): (s: nat)
    requires -1 <= j < |keys| && NonZero(keys)
    ensures s <= j + 1
    ensures forall i :: s <= i <= j ==> RelError(keys, value, i) < tolerance
    ensures s > 0 ==> RelError(keys, value, s - 1) >= tolerance
    decreases j + 1
  {
    if j < 0 then 0
    else if RelError(keys, value, j) < tolerance then DownStart(keys, value, tolerance, j - 1)
    else j + 1
  }

  /**
   * Where the upward walk from j stops: [j, e) are all within tolerance and below the
   * last index, and e is either the candidate that ended the walk or a position at
   * or past the last index, which the walk never reads.
   */
  function UpEnd(keys: seq<real>, value: real, tolerance: real, j: nat): (e: nat)
    requires j <= |keys| && NonZero(keys)
    ensures j <= e <= |keys| && (e > j ==> e <= |keys| - 1)
    ensures forall i :: j <= i < e ==> i < |keys| - 1 && RelError(keys, value, i) < tolerance
    ensures e < |keys| - 1 ==> RelError(keys, value, e) >= tolerance
    decreases |keys| - j
  {
    if j >= |keys| - 1 then j
    else if RelError(keys, value, j) < tolerance then UpEnd(keys, value, tolerance, j + 1)
    else j
  }

  /** DownStart is the only position with the three properties of its contract. */
  lemma DownStartIs(keys: seq<real>, value: real, tolerance: real, j: int, s: nat)
    requires -1 <= j < |keys| && NonZero(keys) && s <= j + 1
    requires forall i :: s <= i <= j ==> RelError(keys, value, i) < tolerance
    requires s > 0 ==> RelError(keys, value, s - 1) >= tolerance
    ensures DownStart(keys, value, tolerance, j) == s
  {
  }

  /** UpEnd is the only position with the properties of its contract. */
  lemma UpEndIs(keys: seq<real>, value: real, tolerance: real, j: nat, e: nat)
    requires j <= e <= |keys| && NonZero(keys) && (e > j ==> e <= |keys| - 1)
    requires forall i :: j <= i < e ==> i < |keys| - 1 && RelError(keys, value, i) < tolerance
    requires e < |keys| - 1 ==> RelError(keys, value, e) >= tolerance
    ensures UpEnd(keys, value, tolerance, j) == e
  {
  }

  /** mid, mid - 1, ..., s: the downward part of the walk that is within tolerance. */
  function Downward(mid: nat, s: nat): (c: seq<nat>)
    requires s <= mid + 1
    ensures |c| == mid + 1 - s && forall k :: 0 <= k < |c| ==> c[k] == mid - k
  {
    seq(mid + 1 - s, k requires 0 <= k < mid + 1 - s => mid - k)
  }

  /** lo, lo + 1, ..., hi - 1: the upward part of the walk that is within tolerance. */
  function Upward(lo: nat, hi: nat): (c: seq<nat>)
    requires lo <= hi
    ensures |c| == hi - lo && forall k :: 0 <= k < |c| ==> c[k] == lo + k
  {
    seq(hi - lo, k requires 0 <= k < hi - lo => lo + k)
  }

  /** The within-tolerance candidates of `_sweep_solution`, in the order it visits them. */
  function Candidates(keys: seq<real>, value: real, mid: nat, tolerance: real): (c: seq<nat>)
    requires mid < |keys| && NonZero(keys)
    ensures forall k :: 0 <= k < |c| ==> c[k] < |keys|
  {
    Downward(mid, DownStart(keys, value, tolerance, mid)) + Upward(mid + 1, UpEnd(keys, value, tolerance, mid + 1))
  }

  /**
   * What `_sweep_solution` returns: the first candidate in visiting order with the least
   * relative error, or None when no visited candidate is within tolerance.
   */
  function Refined(keys: seq<real>, value: real, mid: nat, tolerance: real): (r: Option<nat>)
    requires mid < |keys| && NonZero(keys)
    ensures r.Some? ==> r.value < |keys| && RelError(keys, value, r.value) < tolerance
  {
    var c := Candidates(keys, value, mid, tolerance);
    CandidatesInTolerance(keys, value, mid, tolerance);
    if |c| == 0 then None else Some(c[FirstMin(RelErrors(keys, value, c))])
  }

  /**
   * The walk stays in bounds, every candidate is within tolerance, and the upward part
   * never reaches the last index: a candidate above mid is below |keys| - 1.
   */
  lemma CandidatesInTolerance(keys: seq<real>, value: real, mid: nat, tolerance: real)
    requires mid < |keys| && NonZero(keys)
    ensures var c := Candidates(keys, value, mid, tolerance);
      forall k :: 0 <= k < |c| ==>
        && c[k] < |keys| && RelError(keys, value, c[k]) < tolerance
        && (c[k] > mid ==> c[k] < |keys| - 1)
  {
  }

  /** The walk finds nothing exactly when both mid and the first step up miss. */
  lemma RefinedNoneIff(keys: seq<real>, value: real, mid: nat, tolerance: real)
    requires mid < |keys| && NonZero(keys)
    ensures Refined(keys, value, mid, tolerance).None? <==>
      && RelError(keys, value, mid) >= tolerance
      && (mid + 1 < |keys| - 1 ==> RelError(keys, value, mid + 1) >= tolerance)
  {
    var s := DownStart(keys, value, tolerance, mid);
    var e := UpEnd(keys, value, tolerance, mid + 1);
    if RelError(keys, value, mid) < tolerance {
      assert s <= mid;
    } else {
      assert s == mid + 1;
      if mid + 1 < |keys| - 1 && RelError(keys, value, mid + 1) < tolerance {
        assert e > mid + 1;
      }
    }
  }

  /**
   * A found index is within tolerance, no candidate has a smaller error, and every
   * candidate visited before it has a strictly larger one.
   */
  lemma RefinedIsBest(keys: seq<real>, value: real, mid: nat, tolerance: real)
    requires mid < |keys| && NonZero(keys)
    requires Refined(keys, value, mid, tolerance).Some?
    ensures var k := Refined(keys, value, mid, tolerance).value;
      var c := Candidates(keys, value, mid, tolerance);
      && k < |keys| && RelError(keys, value, k) < tolerance
      && (forall j :: 0 <= j < |c| ==> RelError(keys, value, k) <= RelError(keys, value, c[j]))
      && (exists p :: 0 <= p < |c| && c[p] == k &&
            forall j :: 0 <= j < p ==> RelError(keys, value, k) < RelError(keys, value, c[j]))
  {
    var c := Candidates(keys, value, mid, tolerance);
    var e := RelErrors(keys, value, c);
    var p := FirstMin(e);
    FirstMinSpec(e);
    CandidatesInTolerance(keys, value, mid, tolerance);
    assert c[p] == Refined(keys, value, mid, tolerance).value;
  }

  /**
   * The candidates in visiting order: position p holds mid - p for the d = mid + 1 - s
   * downward ones and s + p for the upward ones, all in [s, e).
   */
  lemma CandidatePositions(keys: seq<real>, value: real, mid: nat, tolerance: real)
    requires mid < |keys| && NonZero(keys)
    ensures var s, e := DownStart(keys, value, tolerance, mid), UpEnd(keys, value, tolerance, mid + 1);
      var c := Candidates(keys, value, mid, tolerance);
      && |c| == e - s
      && (forall p :: 0 <= p < mid + 1 - s ==> c[p] == mid - p)
      && (forall p :: mid + 1 - s <= p < |c| ==> c[p] == s + p)
      && (forall p :: 0 <= p < |c| ==> s <= c[p] < e)
  {
    var s, e := DownStart(keys, value, tolerance, mid), UpEnd(keys, value, tolerance, mid + 1);
    var c := Candidates(keys, value, mid, tolerance);
    assert c == Downward(mid, s) + Upward(mid + 1, e);
  }

  /**
   * The index the walk ends with, described by ranges: the candidates are [s, mid]
   * (visited downwards) and [mid + 1, e) (visited upwards); k is no worse than any
   * candidate and strictly better than every candidate visited before it.
   */
  lemma RefinedIs(keys: seq<real>, value: real, mid: nat, tolerance: real, k: nat)
    requires mid < |keys| && NonZero(keys)
    requires var s, e := DownStart(keys, value, tolerance, mid), UpEnd(keys, value, tolerance, mid + 1);
      && s <= k < e
      && (forall j :: s <= j < e ==> RelError(keys, value, k) <= RelError(keys, value, j))
      && (k <= mid ==> forall j :: k < j <= mid ==> RelError(keys, value, k) < RelError(keys, value, j))
      && (k > mid ==> forall j :: s <= j < k ==> RelError(keys, value, k) < RelError(keys, value, j))
    ensures Refined(keys, value, mid, tolerance) == Some(k)
  {
    var s, e := DownStart(keys, value, tolerance, mid), UpEnd(keys, value, tolerance, mid + 1);
    var c := Candidates(keys, value, mid, tolerance);
    CandidatePositions(keys, value, mid, tolerance);
    var errs := RelErrors(keys, value, c);
    var p: nat := if k <= mid then mid - k else k - s;
    assert c[p] == k;
    forall q | 0 <= q < |c| ensures errs[p] <= errs[q] {
      assert s <= c[q] < e;
    }
    forall q | 0 <= q < p ensures errs[p] < errs[q] {
      assert s <= c[q] < e;
      if k <= mid {
        assert k < c[q] <= mid;
      } else {
        assert c[q] < k;
      }
    }
    FirstMinUnique(errs, p);
  }

  /**
   * The first loop of `_sweep_solution`: mid, mid - 1, ..., stopping at the first
   * candidate outside tolerance, and replacing the best only by a strictly smaller error.
   */
  method WalkDown(keys: seq<real>, value: real, mid: nat, tolerance: real)
    returns (bestIndex: nat, bestError: Option<real>)
    requires mid < |keys| && NonZero(keys)
    ensures var s := DownStart(keys, value, tolerance, mid);
      && (bestError.None? <==> s == mid + 1)
      && (bestError.Some? ==>
            && s <= bestIndex <= mid && bestError.value == RelError(keys, value, bestIndex)
            && (forall k :: s <= k <= mid ==> RelError(keys, value, bestIndex) <= RelError(keys, value, k))
            && (forall k :: bestIndex < k <= mid ==> RelError(keys, value, bestIndex) < RelError(keys, value, k)))
  {
    bestIndex := mid;
    bestError := None;
    var i := 0;
    while mid - i >= 0 && i <= mid
      invariant 0 <= i <= mid + 1
      invariant forall k :: mid + 1 - i <= k <= mid ==> RelError(keys, value, k) < tolerance
      invariant bestError.None? <==> i == 0
      invariant bestError.Some? ==>
        && mid + 1 - i <= bestIndex <= mid && bestError.value == RelError(keys, value, bestIndex)
        && (forall k :: mid + 1 - i <= k <= mid ==> RelError(keys, value, bestIndex) <= RelError(keys, value, k))
        && (forall k :: bestIndex < k <= mid ==> RelError(keys, value, bestIndex) < RelError(keys, value, k))
    {
      var absError := Abs(PpmError(value, keys[mid - i]));
      if absError < tolerance {
        if bestError.None? || absError < bestError.value {
          bestIndex := mid - i;
          bestError := Some(absError);
        }
      } else {
        break;
      }
      i := i + 1;
    }
    DownStartIs(keys, value, tolerance, mid, mid + 1 - i);
  }

  /**
   * The second loop of `_sweep_solution`: mid + 1, mid + 2, ... while below the last
   * index, stopping at the first candidate outside tolerance; it carries on the best
   * that the first loop, whose candidates were [s, mid], left.
   */
  method WalkUp(keys: seq<real>, value: real, mid: nat, tolerance: real, s: nat,
                bestIndex0: nat, bestError0: Option<real>)
    returns (bestIndex: nat, bestError: Option<real>)
    requires mid < |keys| && NonZero(keys) && s <= mid + 1
    requires bestError0.None? <==> s == mid + 1
    requires bestError0.Some? ==>
      && s <= bestIndex0 <= mid && bestError0.value == RelError(keys, value, bestIndex0)
      && (forall k :: s <= k <= mid ==> RelError(keys, value, bestIndex0) <= RelError(keys, value, k))
      && (forall k :: bestIndex0 < k <= mid ==> RelError(keys, value, bestIndex0) < RelError(keys, value, k))
    ensures var e := UpEnd(keys, value, tolerance, mid + 1);
      && (bestError.None? <==> (s == mid + 1 && e == mid + 1))
      && (bestError.Some? ==>
            && s <= bestIndex < e && bestError.value == RelError(keys, value, bestIndex)
            && (forall k :: s <= k < e ==> RelError(keys, value, bestIndex) <= RelError(keys, value, k))
            && (bestIndex <= mid ==> forall k :: bestIndex < k <= mid ==> RelError(keys, value, bestIndex) < RelError(keys, value, k))
            && (bestIndex > mid ==> forall k :: s <= k < bestIndex ==> RelError(keys, value, bestIndex) < RelError(keys, value, k)))
  {
    var n := |keys|;
    bestIndex, bestError := bestIndex0, bestError0;
    var i := 1;
    while mid + i < n - 1
      invariant 1 <= i && mid + i <= n
      invariant mid + i > mid + 1 ==> mid + i <= n - 1
      invariant forall k :: mid + 1 <= k < mid + i ==> RelError(keys, value, k) < tolerance
      invariant bestError.None? <==> (s == mid + 1 && i == 1)
      invariant bestError.Some? ==>
        && s <= bestIndex < mid + i && bestError.value == RelError(keys, value, bestIndex)
        && (forall k :: s <= k < mid + i ==> RelError(keys, value, bestIndex) <= RelError(keys, value, k))
        && (bestIndex <= mid ==> forall k :: bestIndex < k <= mid ==> RelError(keys, value, bestIndex) < RelError(keys, value, k))
        && (bestIndex > mid ==> forall k :: s <= k < bestIndex ==> RelError(keys, value, bestIndex) < RelError(keys, value, k))
      decreases n - i
    {
      var absError := Abs(PpmError(value, keys[mid + i]));
      if absError < tolerance {
        if bestError.None? || absError < bestError.value {
          bestIndex := mid + i;
          bestError := Some(absError);
        }
      } else {
        break;
      }
      i := i + 1;
    }
    UpEndIs(keys, value, tolerance, mid + 1, mid + i);
  }

  /**
   * `_sweep_solution(array, value, mid, tolerance)` on the keys its getter reads: the
   * walk down, then the walk up, and None when no candidate was within tolerance.
   */
  method SweepSolution(keys: seq<real>, value: real, mid: nat, tolerance: real) returns (r: Option<nat>)
    requires mid < |keys| && NonZero(keys)
    ensures r == Refined(keys, value, mid, tolerance)
  {
    var bestIndex, bestError := WalkDown(keys, value, mid, tolerance);
    bestIndex, bestError := WalkUp(keys, value, mid, tolerance,
      DownStart(keys, value, tolerance, mid), bestIndex, bestError);
    if bestError.None? {
      r := None;
    } else {
      RefinedIs(keys, value, mid, tolerance, bestIndex);
      r := Some(bestIndex);
    }
  }

  // ---------------------------------------------------------------------------
  // binary_search
  // ---------------------------------------------------------------------------

  /**
   * The coarse bisection of `binary_search` on [lo, hi): the midpoint whose relative
   * error `ppm_error(key, q)` is within tolerance, or None once the window is empty or a
   * one-wide window misses.
   */
  function Coarse(keys: seq<real>, q: real, tolerance: real, lo: nat, hi: nat): (r: Option<nat>)
    requires lo <= hi <= |keys| && q != 0.0
    ensures r.Some? ==> lo <= r.value < hi && Abs(PpmError(keys[r.value], q)) < tolerance
    decreases hi - lo
  {
    if hi == lo then None
    else
      var mid := (hi + lo) / 2;
      if Abs(PpmError(keys[mid], q)) < tolerance then Some(mid)
      else if hi - lo == 1 then None
      else if keys[mid] > q then Coarse(keys, q, tolerance, lo, mid)
      else Coarse(keys, q, tolerance, mid, hi)
  }

  /** Non-decreasing keys. */
  predicate SortedKeys(keys: seq<real>)
  {
    forall i, j :: 0 <= i < j < |keys| ==> keys[i] <= keys[j]
  }

  /** A key at least as far from q as another, on the same side, has no smaller relative error. */
  lemma PpmErrorFartherIsLarger(near: real, far: real, q: real)
    requires q != 0.0
    requires q <= near <= far || far <= near <= q
    ensures Abs(PpmError(near, q)) <= Abs(PpmError(far, q))
  {
    var rn, rf := PpmError(near, q), PpmError(far, q);
    assert rn * q == near - q;
    assert rf * q == far - q;
    var p := if q > 0.0 then q else -q;
    assert rn * p == if q > 0.0 then near - q else q - near;
    assert (rf - rn) * p == if q > 0.0 then far - near else near - far;
    ProductSign(rn, p);
    ProductSign(rf - rn, p);
    if (q > 0.0) == (q <= near <= far) {
      assert 0.0 <= rn <= rf;
    } else {
      assert (-rn) * p == -(rn * p) && (rn - rf) * p == -((rf - rn) * p);
      ProductSign(-rn, p);
      ProductSign(rn - rf, p);
      assert rf <= rn <= 0.0;
    }
  }

  /** A product with a positive factor has the sign of the other factor. */
  lemma ProductSign(x: real, y: real)
    requires y > 0.0
    ensures x * y >= 0.0 <==> x >= 0.0
  {
    if x < 0.0 {
      assert x * y == -((-x) * y);
    }
  }

  /**
   * On sorted keys the coarse bisection misses nothing: when some key of the window is
   * within tolerance of the query, a midpoint within tolerance is found. A midpoint
   * outside tolerance lies beyond that key on the side the bisection discards.
   */
  lemma {:induction false} CoarseComplete(keys: seq<real>, q: real, tolerance: real, lo: nat, hi: nat, x: nat)
    requires lo <= x < hi <= |keys| && q != 0.0
    requires SortedKeys(keys) && Abs(PpmError(keys[x], q)) < tolerance
    ensures Coarse(keys, q, tolerance, lo, hi).Some?
    decreases hi - lo
  {
    var mid := (hi + lo) / 2;
    if Abs(PpmError(keys[mid], q)) >= tolerance {
      if keys[mid] > q {
        if mid <= x {
          PpmErrorFartherIsLarger(keys[mid], keys[x], q);
          assert false;
        }
        CoarseComplete(keys, q, tolerance, lo, mid, x);
      } else {
        if x <= mid {
          PpmErrorFartherIsLarger(keys[mid], keys[x], q);
          assert false;
        }
        CoarseComplete(keys, q, tolerance, mid, hi, x);
      }
    }
  }

  /**
   * `binary_search(peak_set, neutral_mass, tolerance, getter)`: the coarse bisection reads
   * the getter's key, but the refinement is called without the getter, so it always
   * reads neutral masses.
   */
  function Found(peakSet: seq<DeconvolutedPeak>, q: real, tolerance: real, getter: Key): (r: Option<DeconvolutedPeak>)
    requires q != 0.0 && NonZero(Keys(peakSet, NeutralMass))
    ensures |peakSet| == 0 ==> r.None?
    ensures r.Some? ==> r.value in peakSet && Abs(PpmError(q, r.value.neutralMass)) < tolerance
  {
    match Coarse(Keys(peakSet, getter), q, tolerance, 0, |peakSet|)
    case None => None
    case Some(mid) =>
      match Refined(Keys(peakSet, NeutralMass), q, mid, tolerance)
      case None => None
      case Some(k) => Some(peakSet[k])
  }

  /** The loop of `binary_search`, with the refinement handed the neutral-mass keys. */
  method BinarySearch(peakSet: seq<DeconvolutedPeak>, neutralMass: real, tolerance: real, getter: Key)
    returns (r: Option<DeconvolutedPeak>)
    requires neutralMass != 0.0 && NonZero(Keys(peakSet, NeutralMass))
    ensures r == Found(peakSet, neutralMass, tolerance, getter)
    ensures |peakSet| == 0 ==> r.None?
    ensures r.Some? ==> r.value in peakSet && Abs(PpmError(neutralMass, r.value.neutralMass)) < tolerance
  {
    var coarse := Keys(peakSet, getter);
    var lo, hi := 0, |peakSet|;
    while hi != lo
      invariant 0 <= lo <= hi <= |peakSet|
      invariant Coarse(coarse, neutralMass, tolerance, lo, hi) == Coarse(coarse, neutralMass, tolerance, 0, |peakSet|)
      decreases hi - lo
    {
      var mid := (hi + lo) / 2;
      var foundMass := coarse[mid];
      if Abs(PpmError(foundMass, neutralMass)) < tolerance {
        var fine := Keys(peakSet, NeutralMass);
        var k := SweepSolution(fine, neutralMass, mid, tolerance);
        if k.Some? {
          RefinedIsBest(fine, neutralMass, mid, tolerance);
          r := Some(peakSet[k.value]);
        } else {
          r := None;
        }
        return;
      } else if hi - lo == 1 {
        r := None;
        return;
      } else if foundMass > neutralMass {
        hi := mid;
      } else {
        lo := mid;
      }
    }
    r := None;
  }

  /**
   * Argument order matters: the coarse test `ppm_error(found, query)` accepts the key 1.0
   * for the query 2.0 at tolerance 0.75, but the refinement's `ppm_error(query, found)`
   * rejects it, so the search reports nothing.
   */
  lemma ArgumentOrderMiss()
    ensures Coarse([1.0], 2.0, 0.75, 0, 1) == Some(0)
    ensures Refined([1.0], 2.0, 0, 0.75) == None
  {
    assert RelError([1.0], 2.0, 0) == 1.0;
    RefinedNoneIff([1.0], 2.0, 0, 0.75);
  }

  /**
   * Three keys 1000.000, 1000.010, 1000.100 and the query 1000.005 at 50 parts per
   * million: the coarse hit is 1000.010 and the walk keeps it, because its relative error
   * 0.005 / 1000.010 is strictly smaller than 0.005 / 1000.000 for the key below it.
   */
  lemma EquidistantQueryKeepsUpper()
    ensures Coarse([1000.0, 1000.01, 1000.1], 1000.005, 0.00005, 0, 3) == Some(1)
    ensures Refined([1000.0, 1000.01, 1000.1], 1000.005, 1, 0.00005) == Some(1)
  {
    var keys := [1000.0, 1000.01, 1000.1];
    assert RelError(keys, 1000.005, 1) == 0.005 / 1000.01;
    assert RelError(keys, 1000.005, 0) == 0.005 / 1000.0;
    assert DownStart(keys, 1000.005, 0.00005, -1) == 0;
    assert DownStart(keys, 1000.005, 0.00005, 1) == 0;
    assert UpEnd(keys, 1000.005, 0.00005, 2) == 2;
    var c := Candidates(keys, 1000.005, 1, 0.00005);
    assert c == [1, 0];
    var e := RelErrors(keys, 1000.005, c);
    assert e == [0.005 / 1000.01, 0.005 / 1000.0];
    assert FirstMin(e) == 0 by {
      assert e[..1] == [0.005 / 1000.01];
    }
  }

  /**
   * With m/z as the getter the refinement still reads neutral masses: a peak at m/z 500
   * (neutral mass 998) is a coarse hit for the query 500 on m/z, and `binary_search`
   * still finds nothing because the refinement measures its neutral mass.
   */
  lemma RefinementIgnoresGetter(p: DeconvolutedPeak)
    requires p.mz == 500.0 && p.neutralMass == 998.0
    ensures Coarse(Keys([p], Mz), 500.0, 0.01, 0, 1) == Some(0)
    ensures Found([p], 500.0, 0.01, Mz) == None
  {
    var masses := Keys([p], NeutralMass);
    assert masses == [998.0];
    assert Keys([p], Mz) == [500.0];
    assert RelError(masses, 500.0, 0) == 498.0 / 998.0;
    RefinedNoneIff(masses, 500.0, 0, 0.01);
  }
}
