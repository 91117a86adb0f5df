/**
 * The value layer of the peak set: the rank pair `_Index`, the envelope of matched
 * (m/z, intensity) points, and the deconvoluted peak itself, including the variant
 * that carries the isotopic fit it was derived from.
 */
module Peaks {
  import opened Wrappers

  /** One matched point of an isotopic envelope. */
  datatype EnvelopePair = EnvelopePair(mz: real, intensity: real)

  /**
   * A dynamically typed Python value, for the attributes that the peak classes fill with
   * values of different types: `fit` holds a fit record, None, or (after a clone of a
   * solution peak) whatever `chosen_for_msms` held.
   */
  datatype Value = Nothing | Bool(b: bool) | Num(x: real) | Ref(obj: object)

  /** Which of the two orderings of a peak set is meant: by neutral mass or by m/z. */
  datatype Key = NeutralMass | Mz

  /** Absolute difference below which two peaks' mass and intensity count as equal. */
  const EqualityTolerance: real := 0.00001

  /** The two ranks of a peak, one per ordering; None until a reindex assigns them. */
  class Index {
    var neutralMass: Option<int>
    var mz: Option<int>

    constructor (neutralMass: Option<int>, mz: Option<int>)
      ensures this.neutralMass == neutralMass && this.mz == mz
    {
      this.neutralMass := neutralMass;
      this.mz := mz;
    }

    method Clone() returns (c: Index)
      ensures fresh(c)
      ensures c.neutralMass == neutralMass && c.mz == mz
    {
      c := new Index(neutralMass, mz);
    }
  }

  /** A read-only copy of the (m/z, intensity) pairs matched for a peak. */
  class Envelope {
    const pairs: seq<EnvelopePair>

    constructor (pairs: seq<EnvelopePair>)
      ensures this.pairs == pairs
    {
      this.pairs := pairs;
    }

    /** `envelope[i]`, with Python's negative indices and IndexError. */
    function Get(i: int): (r: Result<EnvelopePair>)
      ensures r.Ok? <==> -|pairs| <= i < |pairs|
      ensures 0 <= i < |pairs| ==> r == Ok(pairs[i])
      ensures -|pairs| <= i < 0 ==> r == Ok(pairs[|pairs| + i])
    {
      match PyIndex(|pairs|, i)
      case Some(k) => Ok(pairs[k])
      case None => Err(IndexError)
    }

    /** A new envelope built from this one's pairs: no two peaks share an envelope object. */
    method Clone() returns (e: Envelope)
      ensures fresh(e) && e.pairs == pairs
    {
      e := new Envelope(pairs);
    }
  }

  /** `mz or mass_charge_ratio(neutral_mass, charge)`: a missing or zero m/z is derived. */
  function ResolveMz(given: Option<real>, derived: real): real
  {
    if given.Some? && given.value != 0.0 then given.value else derived
  }

  /**
   * A deconvoluted peak. The Python subclass for peaks that carry their fit
   * (`DeconvolutedPeakSolution`) is the same class here, told apart by `isSolution`.
   * Only `index` is ever reassigned by the peak set, so the other attributes are constants.
   */
  class DeconvolutedPeak {
    const neutralMass: real
    const intensity: real
    const charge: int
    const signalToNoise: real
    var index: Index
    const fullWidthAtHalfMax: real
    const aToA2Ratio: Option<real>
    const mostAbundantMass: Option<real>
    const averageMass: Option<real>
    const score: Option<real>
    const envelope: Envelope
    const mz: real
    const fit: Value
    const chosenForMsms: Value
    const area: Value
    const isSolution: bool
    const solution: Value

    /**
     * The plain peak. A missing index gets a new, unranked one; the envelope pairs are
     * copied into a new Envelope; a missing or zero m/z is derived from the neutral mass
     * and charge by `massChargeRatio`, which stands for the external `mass_charge_ratio`.
     */
    constructor (neutralMass: real, intensity: real, charge: int, signalToNoise: real,
                 index: Index?, fullWidthAtHalfMax: real, aToA2Ratio: Option<real>,
                 mostAbundantMass: Option<real>, averageMass: Option<real>, score: Option<real>,
                 envelope: seq<EnvelopePair>, mz: Option<real>, fit: Value,
                 chosenForMsms: Value, area: Value, massChargeRatio: (real, int) -> real)
      ensures index != null ==> this.index == index
      ensures index == null ==> fresh(this.index) && this.index.neutralMass == None && this.index.mz == None
      ensures fresh(this.envelope) && this.envelope.pairs == envelope
      ensures this.mz == ResolveMz(mz, massChargeRatio(neutralMass, charge))
      ensures this.neutralMass == neutralMass && this.intensity == intensity && this.charge == charge
      ensures this.signalToNoise == signalToNoise && this.fullWidthAtHalfMax == fullWidthAtHalfMax
      ensures this.aToA2Ratio == aToA2Ratio && this.mostAbundantMass == mostAbundantMass
      ensures this.averageMass == averageMass && this.score == score
      ensures this.fit == fit && this.chosenForMsms == chosenForMsms && this.area == area
      ensures !isSolution && solution == Nothing
    {
      this.neutralMass := neutralMass;
      this.intensity := intensity;
      this.signalToNoise := signalToNoise;
      if index == null {
        this.index := new Index(None, None);
      } else {
        this.index := index;
      }
      this.fullWidthAtHalfMax := fullWidthAtHalfMax;
      this.charge := charge;
      this.aToA2Ratio := aToA2Ratio;
      this.mostAbundantMass := mostAbundantMass;
      this.averageMass := averageMass;
      this.score := score;
      this.envelope := new Envelope(envelope);
      this.mz := ResolveMz(mz, massChargeRatio(neutralMass, charge));
      this.fit := fit;
      this.chosenForMsms := chosenForMsms;
      this.area := area;
      this.isSolution := false;
      this.solution := Nothing;
    }

    /**
     * The solution-carrying peak. The subclass stores `ownFit` first, but the base
     * initialiser then stores its own `fit` argument over it, so `ownFit` is lost.
     */
    constructor Solution(solution: Value, ownFit: Value, neutralMass: real, intensity: real,
                         charge: int, signalToNoise: real, index: Index?,
                         fullWidthAtHalfMax: real, aToA2Ratio: Option<real>,
                         mostAbundantMass: Option<real>, averageMass: Option<real>,
                         score: Option<real>, envelope: seq<EnvelopePair>, mz: Option<real>,
                         fit: Value, chosenForMsms: Value, area: Value,
                         massChargeRatio: (real, int) -> real)
      ensures index != null ==> this.index == index
      ensures index == null ==> fresh(this.index) && this.index.neutralMass == None && this.index.mz == None
      ensures fresh(this.envelope) && this.envelope.pairs == envelope
      ensures this.mz == ResolveMz(mz, massChargeRatio(neutralMass, charge))
      ensures this.neutralMass == neutralMass && this.intensity == intensity && this.charge == charge
      ensures this.signalToNoise == signalToNoise && this.fullWidthAtHalfMax == fullWidthAtHalfMax
      ensures this.aToA2Ratio == aToA2Ratio && this.mostAbundantMass == mostAbundantMass
      ensures this.averageMass == averageMass && this.score == score
      ensures this.fit == fit && this.chosenForMsms == chosenForMsms && this.area == area
      ensures isSolution && this.solution == solution
    {
      this.solution := solution;
      this.neutralMass := neutralMass;
      this.intensity := intensity;
      this.signalToNoise := signalToNoise;
      if index == null {
        this.index := new Index(None, None);
      } else {
        this.index := index;
      }
      this.fullWidthAtHalfMax := fullWidthAtHalfMax;
      this.charge := charge;
      this.aToA2Ratio := aToA2Ratio;
      this.mostAbundantMass := mostAbundantMass;
      this.averageMass := averageMass;
      this.score := score;
      this.envelope := new Envelope(envelope);
      this.mz := ResolveMz(mz, massChargeRatio(neutralMass, charge));
      this.fit := fit;
      this.chosenForMsms := chosenForMsms;
      this.area := area;
      this.isSolution := true;
    }

    /**
     * `__eq__`: neutral mass and intensity each within the equality tolerance. Charge and
     * m/z are not compared. The test is reflexive and symmetric.
     */
    function Equals(other: DeconvolutedPeak): (r: bool)
      ensures other == this ==> r
      ensures r <==> ApproxEqual(other.neutralMass, other.intensity, neutralMass, intensity)
    {
      ApproxEqualSymmetric(neutralMass, intensity, other.neutralMass, other.intensity);
      ApproxEqual(neutralMass, intensity, other.neutralMass, other.intensity)
    }

    /** `__ne__`: the negation of `__eq__`, so no peak is unequal to itself. */
    function NotEquals(other: DeconvolutedPeak): (r: bool)
      ensures r <==> !other.Equals(this)
      ensures r ==> other != this
    {
      !Equals(other)
    }

    /** The tuple `__hash__` hashes; the neutral mass is not part of it. */
    function HashKey(): (real, real, int)
    {
      (mz, intensity, charge)
    }

    /** `DeconvolutedPeakSolution.__iter__`: the solution, the peak itself, then the fit. */
    function Iter(): seq<Value>
      requires isSolution
    {
      [solution, Ref(this), fit]
    }

    /**
     * `clone`. The copy shares this peak's Index object and gets a new Envelope with the
     * same pairs. Cloning a solution peak passes `chosen_for_msms` and `area` one slot
     * early to the base initialiser: they land in `fit` and `chosen_for_msms`, and `area`
     * falls back to its default 0.
     */
    method Clone(massChargeRatio: (real, int) -> real) returns (c: DeconvolutedPeak)
      ensures fresh(c) && fresh(c.envelope)
      ensures ClonedFrom(c, this, massChargeRatio)
    {
      if isSolution {
        c := new DeconvolutedPeak.Solution(solution, fit, neutralMass, intensity, charge,
          signalToNoise, index, fullWidthAtHalfMax, aToA2Ratio, mostAbundantMass, averageMass,
          score, envelope.pairs, Some(mz), chosenForMsms, area, Num(0.0), massChargeRatio);
      } else {
        c := new DeconvolutedPeak(neutralMass, intensity, charge, signalToNoise, index,
          fullWidthAtHalfMax, aToA2Ratio, mostAbundantMass, averageMass, score,
          envelope.pairs, Some(mz), fit, chosenForMsms, area, massChargeRatio);
      }
    }
  }

  /** Approximate equality of (neutral mass, intensity) pairs, as `__eq__` compares them. */
  predicate ApproxEqual(m1: real, i1: real, m2: real, i2: real)
  {
    Abs(m1 - m2) < EqualityTolerance && Abs(i1 - i2) < EqualityTolerance
  }

  lemma ApproxEqualReflexive(m: real, i: real)
    ensures ApproxEqual(m, i, m, i)
  {
  }

  lemma ApproxEqualSymmetric(m1: real, i1: real, m2: real, i2: real)
    ensures ApproxEqual(m1, i1, m2, i2) <==> ApproxEqual(m2, i2, m1, i1)
  {
  }

  /** Peak equality is not transitive: small steps add up past the tolerance. */
  lemma ApproxEqualNotTransitive()
    ensures ApproxEqual(0.0, 0.0, 0.000006, 0.0) && ApproxEqual(0.000006, 0.0, 0.000012, 0.0)
    ensures !ApproxEqual(0.0, 0.0, 0.000012, 0.0)
  {
  }

  /**
   * What a copy made by `clone` has, apart from its Index: the original peak's values, a
   * different Envelope object with the same pairs, a missing or zero m/z re-derived, and
   * for a solution peak the shifted `fit`, `chosen_for_msms` and `area`.
   */
  predicate CopiedFrom(c: DeconvolutedPeak, p: DeconvolutedPeak, massChargeRatio: (real, int) -> real)
  {
    && c != p
    && c.neutralMass == p.neutralMass && c.intensity == p.intensity && c.charge == p.charge
    && c.signalToNoise == p.signalToNoise && c.fullWidthAtHalfMax == p.fullWidthAtHalfMax
    && c.aToA2Ratio == p.aToA2Ratio && c.mostAbundantMass == p.mostAbundantMass
    && c.averageMass == p.averageMass && c.score == p.score
    && c.envelope != p.envelope && c.envelope.pairs == p.envelope.pairs
    && c.mz == ResolveMz(Some(p.mz), massChargeRatio(p.neutralMass, p.charge))
    && c.isSolution == p.isSolution && (p.isSolution ==> c.solution == p.solution)
    && (if p.isSolution
        then c.fit == p.chosenForMsms && c.chosenForMsms == p.area && c.area == Num(0.0)
        else c.fit == p.fit && c.chosenForMsms == p.chosenForMsms && c.area == p.area)
  }

  /**
   * Iterating a clone of a solution peak yields the original's solution, the clone, and
   * then what the original held in `chosen_for_msms`, which the clone keeps as its fit.
   */
  lemma SolutionCloneIter(c: DeconvolutedPeak, p: DeconvolutedPeak, massChargeRatio: (real, int) -> real)
    requires p.isSolution && CopiedFrom(c, p, massChargeRatio)
    ensures c.isSolution && c.Iter() == [p.solution, Ref(c), p.chosenForMsms]
  {
  }

  /**
   * `__eq__` and `__hash__` disagree: two peaks with the same neutral mass and intensity
   * but different m/z compare equal, yet their hashed tuples differ.
   */
  lemma EqualButHashDiffers(p: DeconvolutedPeak, q: DeconvolutedPeak)
    requires p.neutralMass == q.neutralMass && p.intensity == q.intensity && p.mz != q.mz
    ensures p.Equals(q) && q.Equals(p) && p.HashKey() != q.HashKey()
  {
    ApproxEqualReflexive(p.neutralMass, p.intensity);
  }

  /** The hashed tuple ignores the neutral mass: peaks agreeing on m/z, intensity and charge hash alike. */
  lemma HashKeyIgnoresNeutralMass(p: DeconvolutedPeak, q: DeconvolutedPeak)
    requires p.mz == q.mz && p.intensity == q.intensity && p.charge == q.charge
    ensures p.HashKey() == q.HashKey()
  {
  }

  /** A copy compares equal to its source, in both directions. */
  lemma CopyEquals(c: DeconvolutedPeak, p: DeconvolutedPeak, massChargeRatio: (real, int) -> real)
    requires CopiedFrom(c, p, massChargeRatio)
    ensures c.Equals(p) && p.Equals(c)
  {
    ApproxEqualReflexive(p.neutralMass, p.intensity);
  }

  /** A clone as `clone` returns it: a copy that shares the original peak's Index object. */
  ghost predicate ClonedFrom(c: DeconvolutedPeak, p: DeconvolutedPeak, massChargeRatio: (real, int) -> real)
    reads c, p
  {
    CopiedFrom(c, p, massChargeRatio) && c.index == p.index
  }

  /** The attribute a query orders by: `neutral_mass` or `mz`. */
  function KeyOf(p: DeconvolutedPeak, key: Key): real
  {
    if key == NeutralMass then p.neutralMass else p.mz
  }

  /** The keys of a sequence of peaks, in order. */
  function Keys(s: seq<DeconvolutedPeak>, key: Key): (r: seq<real>)
    ensures |r| == |s| && forall i :: 0 <= i < |s| ==> r[i] == KeyOf(s[i], key)
  {
    seq(|s|, i requires 0 <= i < |s| => KeyOf(s[i], key))
  }
}
