/**
 * `DeconvolutedPeakSet`: a collection of peaks held in two orderings, by neutral mass
 * (`peaks`) and by m/z (`_mz_ordered`, absent until the first reindex), with the ranks
 * of each peak written into its Index object. Queries run the free search functions
 * over one of the two orderings.
 */
module PeakSet {
  import opened Wrappers
  import opened Peaks
  import opened Ordering
  import opened Search

  /** The clones in cs are copies of the peaks in ps, position by position. */
  ghost predicate ClonesOf(cs: seq<DeconvolutedPeak>, ps: seq<DeconvolutedPeak>, massChargeRatio: (real, int) -> real)
    reads cs, ps
  {
    |cs| == |ps| && forall k :: 0 <= k < |cs| ==> ClonedFrom(cs[k], ps[k], massChargeRatio)
  }

  /** The peaks of cs are copies of the peaks of ps, position by position. */
  predicate CopiesOf(cs: seq<DeconvolutedPeak>, ps: seq<DeconvolutedPeak>, massChargeRatio: (real, int) -> real)
  {
    |cs| == |ps| && forall k :: 0 <= k < |cs| ==> CopiedFrom(cs[k], ps[k], massChargeRatio)
  }

  /** Every neutral mass is nonzero, so relative errors against them are defined. */
  predicate NonZeroMasses(s: seq<DeconvolutedPeak>)
  {
    forall i :: 0 <= i < |s| ==> s[i].neutralMass != 0.0
  }

  lemma NonZeroMassesKeys(s: seq<DeconvolutedPeak>)
    requires NonZeroMasses(s)
    ensures NonZero(Keys(s, NeutralMass))
  {
  }

  /**
   * One bound of a Python slice of a length-n sequence: a negative bound counts from the
   * end, and the result is clamped to [0, n].
   */
  function SliceBound(n: nat, i: int): (b: nat)
    ensures b <= n
    ensures 0 <= i <= n ==> b == i
    ensures i > n ==> b == n
    ensures -(n as int) <= i < 0 ==> b == i + n
    ensures i < -(n as int) ==> b == 0
  {
    if i < 0 then (if i + n < 0 then 0 else i + n) else if i > n then n else i
  }

  /** The positions `s[start:stop]` covers: [lo, hi), empty when the bounds cross. */
  function SliceBounds(n: nat, start: Option<int>, stop: Option<int>): (b: (nat, nat))
    ensures b.0 <= b.1 <= n
    ensures b.0 == (if start.None? then 0 else SliceBound(n, start.value))
    ensures var hi := if stop.None? then n else SliceBound(n, stop.value);
      b.1 == if hi < b.0 then b.0 else hi
  {
    var lo := if start.None? then 0 else SliceBound(n, start.value);
    var hi := if stop.None? then n else SliceBound(n, stop.value);
    (lo, if hi < lo then lo else hi)
  }

  /**
   * The slice `all_peaks_for` takes, from the neutral-mass keys and the ranks their
   * Index objects hold: the rank of the peak nearest to m - m * tolerance, one further
   * when that peak is outside tolerance of m; and one past the rank of the peak nearest
   * to m + m * tolerance, one less when that peak is outside tolerance. A missing rank
   * that has to be incremented raises TypeError; a missing start rank that does not is
   * used as it is, an open slice start. An empty set fails in the nearest search.
   */
  function BandIndices(keys: seq<real>, ranks: seq<Option<int>>, m: real, tolerance: real): (r: Result<(Option<int>, int)>)
    requires |ranks| == |keys| && m != 0.0
    ensures |keys| == 0 ==> r == Err(TypeError)
    ensures r.Err? ==> r.error == TypeError
    ensures |keys| > 0 ==>
      var loK, hiK := NearestIndex(keys, m - m * tolerance), NearestIndex(keys, m + m * tolerance);
      r.Err? <==> (Abs(PpmError(keys[loK], m)) > tolerance && ranks[loK].None?) || ranks[hiK].None?
    ensures r.Ok? ==> var hiK := NearestIndex(keys, m + m * tolerance);
      && ranks[hiK].Some?
      && r.value.1 == ranks[hiK].value + (if Abs(PpmError(keys[hiK], m)) > tolerance then 0 else 1)
    ensures r.Ok? ==> var loK := NearestIndex(keys, m - m * tolerance);
      if Abs(PpmError(keys[loK], m)) > tolerance
      then ranks[loK].Some? && r.value.0 == Some(ranks[loK].value + 1)
      else r.value.0 == ranks[loK]
  {
    if |keys| == 0 then Err(TypeError)
    else
      var loK := NearestIndex(keys, m - m * tolerance);
      var hiK := NearestIndex(keys, m + m * tolerance);
      SliceEnds(Abs(PpmError(keys[loK], m)) > tolerance, ranks[loK], Abs(PpmError(keys[hiK], m)) > tolerance, ranks[hiK])
  }

  /** The neutral-mass positions the lower and upper lookups of `all_peaks_for` land on. */
  function LowerHit(s: seq<DeconvolutedPeak>, m: real, tolerance: real): (k: nat)
    requires |s| > 0
    ensures k < |s|
  {
    NearestIndex(Keys(s, NeutralMass), m - m * tolerance)
  }

  function UpperHit(s: seq<DeconvolutedPeak>, m: real, tolerance: real): (k: nat)
    requires |s| > 0
    ensures k < |s|
  {
    NearestIndex(Keys(s, NeutralMass), m + m * tolerance)
  }

  /** The slice ends `all_peaks_for` computes from the ranks the two hits' Index objects hold. */
  function Band(s: seq<DeconvolutedPeak>, m: real, tolerance: real): Result<(Option<int>, int)>
    requires |s| > 0 && m != 0.0
    reads s[LowerHit(s, m, tolerance)], s[UpperHit(s, m, tolerance)]
    reads s[LowerHit(s, m, tolerance)].index, s[UpperHit(s, m, tolerance)].index
  {
    var lo, hi := s[LowerHit(s, m, tolerance)], s[UpperHit(s, m, tolerance)];
    SliceEnds(Abs(PpmError(lo.neutralMass, m)) > tolerance, lo.index.neutralMass,
              Abs(PpmError(hi.neutralMass, m)) > tolerance, hi.index.neutralMass)
  }

  /** The positions the slice of a successful `all_peaks_for` covers. */
  function BandBounds(s: seq<DeconvolutedPeak>, m: real, tolerance: real): (nat, nat)
    requires |s| > 0 && m != 0.0 && Band(s, m, tolerance).Ok?
    reads s[LowerHit(s, m, tolerance)], s[UpperHit(s, m, tolerance)]
    reads s[LowerHit(s, m, tolerance)].index, s[UpperHit(s, m, tolerance)].index
  {
    var band := Band(s, m, tolerance).value;
    SliceBounds(|s|, band.0, Some(band.1))
  }

  /** The neutral-mass ranks the Index objects of s hold, in order. */
  function NeutralRanks(s: seq<DeconvolutedPeak>): (r: seq<Option<int>>)
    reads set p | p in s, set p | p in s :: p.index
    ensures |r| == |s| && forall i :: 0 <= i < |s| ==> r[i] == s[i].index.neutralMass
  {
    seq(|s|, i reads set p | p in s, set p | p in s :: p.index requires 0 <= i < |s| => s[i].index.neutralMass)
  }

  /** Band is BandIndices on the keys and ranks of the peaks, so the scenarios about the latter apply. */
  lemma BandIsBandIndices(s: seq<DeconvolutedPeak>, m: real, tolerance: real)
    requires |s| > 0 && m != 0.0
    ensures Band(s, m, tolerance) == BandIndices(Keys(s, NeutralMass), NeutralRanks(s), m, tolerance)
  {
  }

  /**
   * The slice ends from the two peaks the nearest lookups found, given whether each is
   * outside tolerance and the rank its Index object holds.
   */
  function SliceEnds(loOut: bool, loRank: Option<int>, hiOut: bool, hiRank: Option<int>): (r: Result<(Option<int>, int)>)
    ensures r.Err? <==> (loOut && loRank.None?) || hiRank.None?
    ensures r.Err? ==> r.error == TypeError
    ensures r.Ok? ==> r.value.0 == (if loOut then Some(loRank.value + 1) else loRank)
    ensures r.Ok? ==> r.value.1 == hiRank.value + (if hiOut then 0 else 1)
  {
    if loOut && loRank.None? then Err(TypeError)
    else if hiRank.None? then Err(TypeError)
    else
      var loIx := if loOut then Some(loRank.value + 1) else loRank;
      Ok((loIx, hiRank.value + 1 - (if hiOut then 1 else 0)))
  }

  /** The first position whose key is at least m1, or |keys| when there is none. */
  function FirstAtLeast(keys: seq<real>, m1: real): (a: nat)
    ensures a <= |keys|
    ensures forall i :: 0 <= i < a ==> keys[i] < m1
    ensures a < |keys| ==> keys[a] >= m1
  {
    if keys == [] then 0
    else if keys[0] >= m1 then 0
    else 1 + FirstAtLeast(keys[1..], m1)
  }

  lemma FirstAtLeastIs(keys: seq<real>, m1: real, a: nat)
    requires a <= |keys|
    requires forall i :: 0 <= i < a ==> keys[i] < m1
    requires a < |keys| ==> keys[a] >= m1
    ensures FirstAtLeast(keys, m1) == a
  {
  }

  /**
   * Where collecting from a stops: the first position after a whose key exceeds m2, or
   * |keys|. The key at a itself is not compared with m2.
   */
  function RunEnd(keys: seq<real>, a: nat, m2: real): (b: nat)
    requires a <= |keys|
    ensures a <= b <= |keys| && (a < |keys| ==> a < b)
    ensures forall i :: a < i < b ==> keys[i] <= m2
    ensures b < |keys| ==> keys[b] > m2
    decreases |keys| - a
  {
    if a == |keys| then a
    else if a + 1 == |keys| || keys[a + 1] > m2 then a + 1
    else RunEnd(keys, a + 1, m2)
  }

  lemma RunEndIs(keys: seq<real>, a: nat, m2: real, b: nat)
    requires a <= b <= |keys| && (a < |keys| ==> a < b)
    requires forall i :: a < i < b ==> keys[i] <= m2
    requires b < |keys| ==> keys[b] > m2
    ensures RunEnd(keys, a, m2) == b
  {
  }

  /**
   * The rank r is the last of the first n positions of s that holds the peak object at
   * k: the position a ranking loop over those n positions writes last for that peak.
   */
  predicate LastAt(s: seq<DeconvolutedPeak>, n: nat, k: nat, r: Option<int>)
  {
    && r.Some? && k <= r.value < n <= |s| && s[r.value] == s[k]
    && forall l :: r.value < l < n ==> s[l] != s[k]
  }

  /** Without repeated peak objects the last position holding a peak is its own. */
  lemma LastAtDistinct(s: seq<DeconvolutedPeak>, n: nat, k: nat, r: Option<int>)
    requires Distinct(s) && LastAt(s, n, k, r)
    ensures r == Some(k)
  {
  }

  /**
   * The first loop of `_reindex`: every peak of s gets a new Index holding its position
   * in s as its neutral-mass rank. Distinct peaks end with distinct Index objects; a peak
   * that occurs more than once keeps the Index, and so the rank, of its last position.
   */
  method RankByNeutralMass(s: seq<DeconvolutedPeak>)
    modifies s
    ensures forall k :: 0 <= k < |s| ==> fresh(s[k].index) && s[k].index.neutralMass.Some? && s[k].index.mz == None
    ensures forall k, l :: 0 <= k < |s| && 0 <= l < |s| && s[k] != s[l] ==> s[k].index != s[l].index
    ensures forall k :: 0 <= k < |s| ==> LastAt(s, |s|, k, s[k].index.neutralMass)
  {
    for i := 0 to |s|
      invariant forall k :: 0 <= k < i ==> fresh(s[k].index) && s[k].index.neutralMass.Some? && s[k].index.mz == None
      invariant forall k, l :: 0 <= k < i && 0 <= l < i && s[k] != s[l] ==> s[k].index != s[l].index
      invariant forall k :: 0 <= k < i ==> LastAt(s, i, k, s[k].index.neutralMass)
    {
      s[i].index := new Index(Some(i), None);
    }
  }

  /**
   * The second loop of `_reindex`: the Index of each peak of t records the peak's
   * position in t as its m/z rank, the last such position when the peak occurs more
   * than once; neutral-mass ranks are untouched.
   */
  method RankByMz(t: seq<DeconvolutedPeak>)
    requires forall k, l :: 0 <= k < |t| && 0 <= l < |t| && t[k] != t[l] ==> t[k].index != t[l].index
    modifies set k | 0 <= k < |t| :: t[k].index
    ensures forall k :: 0 <= k < |t| ==> t[k].index.mz.Some? && t[k].index.neutralMass == old(t[k].index.neutralMass)
    ensures forall k :: 0 <= k < |t| ==> LastAt(t, |t|, k, t[k].index.mz)
  {
    for j := 0 to |t|
      invariant forall k :: 0 <= k < |t| ==> t[k].index.neutralMass == old(t[k].index.neutralMass)
      invariant forall k :: 0 <= k < j ==> t[k].index.mz.Some?
      invariant forall k :: 0 <= k < j ==> LastAt(t, j, k, t[k].index.mz)
    {
      t[j].index.mz := Some(j);
    }
  }

  /**
   * Both loops of `_reindex`, over the two orderings of the same peaks: afterwards every
   * peak has a new Index holding a rank for each ordering, the last position of that
   * peak in the ordering (its only one when no peak occurs twice).
   */
  method RankPeaks(byMass: seq<DeconvolutedPeak>, byMz: seq<DeconvolutedPeak>)
    requires forall i :: 0 <= i < |byMz| ==> byMz[i] in byMass
    requires forall i :: 0 <= i < |byMass| ==> byMass[i] in byMz
    modifies byMass
    ensures forall i :: 0 <= i < |byMass| ==>
      fresh(byMass[i].index) && byMass[i].index.neutralMass.Some? && byMass[i].index.mz.Some?
    ensures forall i :: 0 <= i < |byMass| ==> LastAt(byMass, |byMass|, i, byMass[i].index.neutralMass)
    ensures forall j :: 0 <= j < |byMz| ==> LastAt(byMz, |byMz|, j, byMz[j].index.mz)
  {
    RankByNeutralMass(byMass);
    assert forall k :: 0 <= k < |byMz| ==> fresh(byMz[k].index);
    RankByMz(byMz);
  }

  /**
   * The loop of `between`: walks the ordering, starts collecting clones at the first
   * key at least m1 and stops before the next key above m2.
   */
  method CollectRun(list: seq<DeconvolutedPeak>, key: Key, m1: real, m2: real, massChargeRatio: (real, int) -> real)
    returns (acc: seq<DeconvolutedPeak>, ghost a: nat, ghost b: nat)
    ensures a <= b <= |list| && (a < |list| ==> a < b)
    ensures forall k :: 0 <= k < a ==> KeyOf(list[k], key) < m1
    ensures a < |list| ==> KeyOf(list[a], key) >= m1
    ensures forall k :: a < k < b ==> KeyOf(list[k], key) <= m2
    ensures b < |list| ==> KeyOf(list[b], key) > m2
    ensures CopiesOf(acc, list[a..b], massChargeRatio)
    ensures forall k :: 0 <= k < |acc| ==> fresh(acc[k])
    ensures Distinct(acc)
  {
    acc := [];
    var collecting := false;
    a := 0;
    var i := 0;
    while i < |list|
      invariant 0 <= i <= |list|
      invariant !collecting ==> acc == [] && forall k :: 0 <= k < i ==> KeyOf(list[k], key) < m1
      invariant collecting ==>
        && a < i && KeyOf(list[a], key) >= m1 && (forall k :: 0 <= k < a ==> KeyOf(list[k], key) < m1)
        && (forall k :: a < k < i ==> KeyOf(list[k], key) <= m2)
        && CopiesOf(acc, list[a..i], massChargeRatio)
      invariant forall k :: 0 <= k < |acc| ==> fresh(acc[k])
      invariant Distinct(acc)
    {
      var peak := list[i];
      if !collecting && KeyOf(peak, key) >= m1 {
        collecting := true;
        a := i;
      } else if collecting && KeyOf(peak, key) > m2 {
        break;
      }
      if collecting {
        var c := peak.Clone(massChargeRatio);
        acc := acc + [c];
      }
      i := i + 1;
    }
    if !collecting {
      a := |list|;
    }
    b := i;
  }

  /**
   * Both sorts of `_reindex` and the two ranking loops: returns the neutral-mass
   * ordering of s and the m/z ordering of that, with every peak given a new Index.
   */
  method SortAndRankPeaks(s: seq<DeconvolutedPeak>) returns (byMass: seq<DeconvolutedPeak>, byMz: seq<DeconvolutedPeak>)
    modifies s
    ensures byMass == StableSort(s, NeutralMass) && byMz == StableSort(byMass, Mz)
    ensures forall i :: 0 <= i < |byMass| ==>
      fresh(byMass[i].index) && byMass[i].index.neutralMass.Some? && byMass[i].index.mz.Some?
    ensures forall i :: 0 <= i < |byMass| ==> LastAt(byMass, |byMass|, i, byMass[i].index.neutralMass)
    ensures forall j :: 0 <= j < |byMz| ==> LastAt(byMz, |byMz|, j, byMz[j].index.mz)
  {
    byMass := StableSort(s, NeutralMass);
    byMz := StableSort(byMass, Mz);
    SortedMembers(s, NeutralMass);
    SortedMembers(byMass, Mz);
    RankPeaks(byMass, byMz);
  }

  /** `DeconvolutedPeakSet(peaks)._reindex()`: a new set over peaks without repeats, reindexed. */
  method Reindexed(peaks: seq<DeconvolutedPeak>) returns (r: DeconvolutedPeakSet)
    requires Distinct(peaks)
    modifies peaks
    ensures fresh(r)
    ensures r.peaks == StableSort(peaks, NeutralMass) && r.mzOrdered == Some(StableSort(r.peaks, Mz))
    ensures forall i :: 0 <= i < |r.peaks| ==> fresh(r.peaks[i].index)
    ensures forall i :: 0 <= i < |r.peaks| ==> r.peaks[i].index.neutralMass == Some(i)
    ensures forall j :: 0 <= j < |r.mzOrdered.value| ==> r.mzOrdered.value[j].index.mz == Some(j)
  {
    SortKeepsDistinct(peaks, NeutralMass);
    SortKeepsDistinct(StableSort(peaks, NeutralMass), Mz);
    var collected := new DeconvolutedPeakSet(peaks);
    r := collected.SortAndRank();
    forall i | 0 <= i < |r.peaks| ensures r.peaks[i].index.neutralMass == Some(i) {
      LastAtDistinct(r.peaks, |r.peaks|, i, r.peaks[i].index.neutralMass);
    }
    forall j | 0 <= j < |r.mzOrdered.value| ensures r.mzOrdered.value[j].index.mz == Some(j) {
      LastAtDistinct(r.mzOrdered.value, |r.mzOrdered.value|, j, r.mzOrdered.value[j].index.mz);
    }
  }

  class DeconvolutedPeakSet {
    var peaks: seq<DeconvolutedPeak>
    var mzOrdered: Option<seq<DeconvolutedPeak>>

    /** A set over the given peaks, in the given order, with no m/z ordering yet. */
    constructor (peaks: seq<DeconvolutedPeak>)
      ensures this.peaks == peaks && mzOrdered == None
    {
      this.peaks := peaks;
      this.mzOrdered := None;
    }

    /**
     * `_reindex`: `peaks` becomes the stable sort of the peaks by neutral mass and
     * `_mz_ordered` the stable sort of that by m/z; every peak gets a new Index holding
     * its two positions. Returns the set itself.
     */
    method SortAndRank() returns (self: DeconvolutedPeakSet)
      modifies this, peaks
      ensures self == this
      ensures peaks == StableSort(old(peaks), NeutralMass)
      ensures mzOrdered == Some(StableSort(peaks, Mz))
      ensures forall i :: 0 <= i < |peaks| ==>
        fresh(peaks[i].index) && peaks[i].index.neutralMass.Some? && peaks[i].index.mz.Some?
      ensures forall i :: 0 <= i < |peaks| ==> LastAt(peaks, |peaks|, i, peaks[i].index.neutralMass)
      ensures forall j :: 0 <= j < |mzOrdered.value| ==> LastAt(mzOrdered.value, |mzOrdered.value|, j, mzOrdered.value[j].index.mz)
    {
      var byMass, byMz := SortAndRankPeaks(peaks);
      peaks := byMass;
      mzOrdered := Some(byMz);
      self := this;
    }

    /** `reindex`: the same update as `_reindex`, returning nothing. */
    method Reindex()
      modifies this, peaks
      ensures peaks == StableSort(old(peaks), NeutralMass)
      ensures mzOrdered == Some(StableSort(peaks, Mz))
      ensures forall i :: 0 <= i < |peaks| ==>
        fresh(peaks[i].index) && peaks[i].index.neutralMass.Some? && peaks[i].index.mz.Some?
      ensures forall i :: 0 <= i < |peaks| ==> LastAt(peaks, |peaks|, i, peaks[i].index.neutralMass)
      ensures forall j :: 0 <= j < |mzOrdered.value| ==> LastAt(mzOrdered.value, |mzOrdered.value|, j, mzOrdered.value[j].index.mz)
    {
      var _ := SortAndRank();
    }

    /** `self[i]` for an integer i: the stored peak itself, with negative indices from the end. */
    function At(i: int): (r: Result<DeconvolutedPeak>)
      reads this
      ensures r.Ok? <==> -|peaks| <= i < |peaks|
      ensures r.Err? ==> r.error == IndexError
      ensures 0 <= i < |peaks| ==> r == Ok(peaks[i])
      ensures -|peaks| <= i < 0 ==> r == Ok(peaks[|peaks| + i])
    {
      match PyIndex(|peaks|, i)
      case Some(k) => Ok(peaks[k])
      case None => Err(IndexError)
    }

    /** Clones of the peaks at positions [lo, hi), in order. */
    method CloneRange(lo: nat, hi: nat, massChargeRatio: (real, int) -> real) returns (cs: seq<DeconvolutedPeak>)
      requires lo <= hi <= |peaks|
      ensures ClonesOf(cs, peaks[lo..hi], massChargeRatio)
      ensures forall k :: 0 <= k < |cs| ==> fresh(cs[k]) && fresh(cs[k].envelope)
    {
      cs := [];
      for i := lo to hi
        invariant ClonesOf(cs, peaks[lo..i], massChargeRatio)
        invariant forall k :: 0 <= k < |cs| ==> fresh(cs[k]) && fresh(cs[k].envelope)
      {
        var c := peaks[i].Clone(massChargeRatio);
        cs := cs + [c];
      }
    }

    /**
     * `self[start:stop]`: a new set of clones of the sliced peaks. The clones keep the
     * originals' Index objects, the new set is not reindexed and has no m/z ordering.
     */
    method Slice(start: Option<int>, stop: Option<int>, massChargeRatio: (real, int) -> real)
      returns (r: DeconvolutedPeakSet)
      ensures fresh(r) && r.mzOrdered == None
      ensures var b := SliceBounds(|peaks|, start, stop);
        ClonesOf(r.peaks, peaks[b.0..b.1], massChargeRatio)
      ensures forall k :: 0 <= k < |r.peaks| ==> fresh(r.peaks[k])
    {
      var b := SliceBounds(|peaks|, start, stop);
      var cs := CloneRange(b.0, b.1, massChargeRatio);
      r := new DeconvolutedPeakSet(cs);
    }

    /** `clone`: a new set of clones of every peak, not reindexed. */
    method Clone(massChargeRatio: (real, int) -> real) returns (r: DeconvolutedPeakSet)
      ensures fresh(r) && r.mzOrdered == None
      ensures ClonesOf(r.peaks, peaks, massChargeRatio)
      ensures forall k :: 0 <= k < |r.peaks| ==> fresh(r.peaks[k])
    {
      var cs := CloneRange(0, |peaks|, massChargeRatio);
      assert peaks[0..|peaks|] == peaks;
      r := new DeconvolutedPeakSet(cs);
    }

    /** The ordering a query with or without `use_mz` runs over. */
    function OrderFor(useMz: bool): Option<seq<DeconvolutedPeak>>
      reads this
    {
      if useMz then mzOrdered else Some(peaks)
    }

    /**
     * `get_nearest_peak(neutral_mass, use_mz)`: the nearest lookup over the chosen
     * ordering; with `use_mz` before any reindex there is no ordering and the lookup
     * fails with TypeError, as it does on an empty set.
     */
    method GetNearestPeak(neutralMass: real, useMz: bool) returns (r: Result<(DeconvolutedPeak, real)>)
      ensures OrderFor(useMz).None? ==> r == Err(TypeError)
      ensures OrderFor(useMz).Some? ==> var list := OrderFor(useMz).value;
        && (r.Err? <==> |list| == 0)
        && (r.Err? ==> r.error == TypeError)
        && (r.Ok? ==>
              && r.value.0 == list[NearestIndex(Keys(list, KeyFor(useMz)), neutralMass)]
              && r.value.1 == Abs(KeyOf(r.value.0, KeyFor(useMz)) - neutralMass))
    {
      if useMz {
        if mzOrdered.None? {
          r := Err(TypeError);
        } else {
          r := Search.GetNearestPeak(mzOrdered.value, neutralMass, true);
        }
      } else {
        r := Search.GetNearestPeak(peaks, neutralMass, false);
      }
    }

    /**
     * `has_peak(neutral_mass, tolerance, use_mz)`: `binary_search` over the chosen
     * ordering with its key as getter; a found peak is within tolerance of the query by
     * its neutral mass, whichever ordering was searched.
     */
    method HasPeak(neutralMass: real, tolerance: real, useMz: bool) returns (r: Result<Option<DeconvolutedPeak>>)
      requires neutralMass != 0.0
      requires NonZeroMasses(peaks) && (mzOrdered.Some? ==> NonZeroMasses(mzOrdered.value))
      ensures OrderFor(useMz).None? ==> r == Err(TypeError)
      ensures OrderFor(useMz).Some? ==> var list := OrderFor(useMz).value;
        && r.Ok?
        && r.value == Found(list, neutralMass, tolerance, KeyFor(useMz))
        && (r.value.Some? ==>
              r.value.value in list && Abs(PpmError(neutralMass, r.value.value.neutralMass)) < tolerance)
    {
      if useMz {
        if mzOrdered.None? {
          r := Err(TypeError);
        } else {
          NonZeroMassesKeys(mzOrdered.value);
          var found := BinarySearch(mzOrdered.value, neutralMass, tolerance, Mz);
          r := Ok(found);
        }
      } else {
        NonZeroMassesKeys(peaks);
        var found := BinarySearch(peaks, neutralMass, tolerance, NeutralMass);
        r := Ok(found);
      }
    }

    /**
     * The first half of `all_peaks_for(neutral_mass, tolerance)`: two nearest lookups on
     * the neutral-mass ordering, at m - m * tolerance and m + m * tolerance, and the slice
     * ends computed from the ranks of the peaks they find, as Band describes them.
     */
    method BandFor(neutralMass: real, tolerance: real) returns (r: Result<(Option<int>, int)>)
      requires neutralMass != 0.0
      ensures |peaks| == 0 ==> r == Err(TypeError)
      ensures |peaks| > 0 ==> r == Band(peaks, neutralMass, tolerance)
    {
      var lo := neutralMass - neutralMass * tolerance;
      var hi := neutralMass + neutralMass * tolerance;
      var loFound := GetNearestPeak(lo, false);
      if loFound.Err? {
        return Err(loFound.error);
      }
      var hiFound := GetNearestPeak(hi, false);
      var loPeak, hiPeak := loFound.value.0, hiFound.value.0;
      ghost var keys := Keys(peaks, NeutralMass);
      ghost var loK, hiK := NearestIndex(keys, lo), NearestIndex(keys, hi);
      assert loPeak == peaks[loK] && hiPeak == peaks[hiK];
      assert LowerHit(peaks, neutralMass, tolerance) == loK && UpperHit(peaks, neutralMass, tolerance) == hiK;
      var loOut := Abs(PpmError(loPeak.neutralMass, neutralMass)) > tolerance;
      var hiOut := Abs(PpmError(hiPeak.neutralMass, neutralMass)) > tolerance;
      r := SliceEnds(loOut, loPeak.index.neutralMass, hiOut, hiPeak.index.neutralMass);
    }

    /**
     * `all_peaks_for(neutral_mass, tolerance)`: a new set of clones of the slice of the
     * neutral-mass ordering between the ends BandFor computes. A set with no peaks, or a
     * missing rank that has to be incremented, raises TypeError.
     */
    method AllPeaksFor(neutralMass: real, tolerance: real, massChargeRatio: (real, int) -> real)
      returns (r: Result<DeconvolutedPeakSet>)
      requires neutralMass != 0.0
      ensures |peaks| == 0 ==> r == Err(TypeError)
      ensures |peaks| > 0 ==>
        && (r.Err? <==> Band(peaks, neutralMass, tolerance).Err?)
        && (r.Err? ==> r.error == TypeError)
        && (r.Ok? ==> var b := BandBounds(peaks, neutralMass, tolerance);
              && fresh(r.value) && r.value.mzOrdered == None
              && ClonesOf(r.value.peaks, peaks[b.0..b.1], massChargeRatio))
    {
      var band := BandFor(neutralMass, tolerance);
      if band.Err? {
        return Err(band.error);
      }
      ghost var before := peaks;
      var sliced := Slice(band.value.0, Some(band.value.1), massChargeRatio);
      assert peaks == before;
      assert Band(peaks, neutralMass, tolerance) == band;
      r := Ok(sliced);
    }

    /**
     * `between(m1, m2, tolerance, use_mz)`: clones of the run of the chosen ordering that
     * starts at the first key at least m1 and stops before the next key above m2, in a
     * new set that is then reindexed. `tolerance` is not used.
     */
    method Between(m1: real, m2: real, tolerance: real, useMz: bool, massChargeRatio: (real, int) -> real)
      returns (r: Result<DeconvolutedPeakSet>, ghost copies: seq<DeconvolutedPeak>)
      ensures r.Err? <==> OrderFor(useMz).None?
      ensures r.Err? ==> r.error == TypeError
      ensures r.Ok? ==> var list := OrderFor(useMz).value;
        var keys := Keys(list, KeyFor(useMz));
        var a := FirstAtLeast(keys, m1);
        var b := RunEnd(keys, a, m2);
        && fresh(r.value)
        && CopiesOf(copies, list[a..b], massChargeRatio)
        && (forall k :: 0 <= k < |copies| ==> fresh(copies[k]))
        && r.value.peaks == StableSort(copies, NeutralMass)
        && r.value.mzOrdered == Some(StableSort(r.value.peaks, Mz))
        && (forall i :: 0 <= i < |r.value.peaks| ==> fresh(r.value.peaks[i].index))
        && (forall i :: 0 <= i < |r.value.peaks| ==> r.value.peaks[i].index.neutralMass == Some(i))
        && (forall j :: 0 <= j < |r.value.mzOrdered.value| ==> r.value.mzOrdered.value[j].index.mz == Some(j))
    {
      var list: seq<DeconvolutedPeak>;
      if !useMz {
        list := peaks;
      } else if mzOrdered.None? {
        return Err(TypeError), [];
      } else {
        list := mzOrdered.value;
      }
      var acc, a, b := CollectRun(list, KeyFor(useMz), m1, m2, massChargeRatio);
      ghost var keys := Keys(list, KeyFor(useMz));
      FirstAtLeastIs(keys, m1, a);
      RunEndIs(keys, a, m2, b);
      var self := Reindexed(acc);
      r, copies := Ok(self), acc;
    }
  }

  /** Reindexing twice gives the same two orderings as reindexing once. */
  lemma ReindexIdempotent(s: seq<DeconvolutedPeak>)
    ensures var byMass := StableSort(s, NeutralMass);
      && StableSort(byMass, NeutralMass) == byMass
      && StableSort(StableSort(byMass, NeutralMass), Mz) == StableSort(byMass, Mz)
  {
    StableSortIdempotent(s, NeutralMass);
  }

  /**
   * Two peaks of equal neutral mass 100 within tolerance of the query 100: both lookups
   * land on the first, so the slice [0:1] leaves the second out.
   */
  lemma AllPeaksForMissesUpperDuplicate()
    ensures BandIndices([100.0, 100.0], [Some(0), Some(1)], 100.0, 0.01) == Ok((Some(0), 1))
    ensures Abs(PpmError(100.0, 100.0)) <= 0.01
  {
    var keys := [100.0, 100.0];
    assert SweptWindow(keys, 99.0, 0, 2) == (0, 2);
    assert SweptWindow(keys, 101.0, 0, 2) == (0, 2);
    NearestIndexIs(keys, 99.0, 0);
    NearestIndexIs(keys, 101.0, 0);
  }

  /**
   * Two peaks at 98, outside 1 percent of the query 100, and one at 100: the lower
   * lookup lands on the first 98 and steps one on, onto the second 98, so the slice
   * [1:3] keeps a peak outside tolerance.
   */
  lemma AllPeaksForKeepsLowerOutlier()
    ensures BandIndices([98.0, 98.0, 100.0], [Some(0), Some(1), Some(2)], 100.0, 0.01) == Ok((Some(1), 3))
    ensures Abs(PpmError(98.0, 100.0)) > 0.01
  {
    var keys := [98.0, 98.0, 100.0];
    assert SweptWindow(keys, 99.0, 0, 3) == (0, 3);
    assert SweptWindow(keys, 101.0, 0, 3) == (0, 3);
    NearestIndexIs(keys, 99.0, 0);
    NearestIndexIs(keys, 101.0, 2);
  }

  /**
   * Keys 1000.000, 1000.010, 1000.100 and the query 1000.05 at 50 parts per million: both
   * outer keys are 0.05 / 1000.05 < 0.00005 away, so all three peaks are in the slice.
   */
  lemma AllPeaksForBandScenario()
    ensures BandIndices([1000.0, 1000.01, 1000.1], [Some(0), Some(1), Some(2)], 1000.05, 0.00005) == Ok((Some(0), 3))
  {
    var keys := [1000.0, 1000.01, 1000.1];
    var lo := 1000.05 - 1000.05 * 0.00005;
    var hi := 1000.05 + 1000.05 * 0.00005;
    assert SweptWindow(keys, lo, 0, 3) == (0, 3);
    assert SweptWindow(keys, hi, 0, 3) == (0, 3);
    NearestIndexIs(keys, lo, 0);
    NearestIndexIs(keys, hi, 2);
    assert Abs(PpmError(1000.0, 1000.05)) == 0.05 / 1000.05;
    assert Abs(PpmError(1000.1, 1000.05)) == 0.05 / 1000.05;
  }

  /** `between` keeps the first key at least m1 even when it is above m2. */
  lemma BetweenExceedsUpper()
    ensures FirstAtLeast([5.0], 1.0) == 0 && RunEnd([5.0], 0, 2.0) == 1
  {
  }
}
