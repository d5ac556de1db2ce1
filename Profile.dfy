/**
 * The user's taste profile: an exponentially weighted moving average of
 * normalised song features, a seeded flag and an interaction counter.
 */
module Profile {
  import opened Features
  import opened Songs

  /** Smoothing factor of the moving average on a positive update. */
  const Smoothing: real := 0.10

  /** The weighted mean of `a` and `b` that gives `b` the weight `alpha`. */
  function Blend(a: real, b: real, alpha: real): real
  {
    (1.0 - alpha) * a + alpha * b
  }

  /** One moving-average step: every component moves by `alpha` toward the song's value. */
  function Ewma(avg: FeatureVector, x: FeatureVector, alpha: real): (r: FeatureVector)
  {
    seq(NumFeatures, i requires 0 <= i < NumFeatures => Blend(avg[i], x[i], alpha))
  }

  /** The average after an update with `delta` on a profile whose seeded flag is `seeded`. */
  function NextAverage(avg: FeatureVector, seeded: bool, x: FeatureVector, delta: int): FeatureVector
  {
    if !seeded then x
    else if delta > 0 then Ewma(avg, x, Smoothing)
    else avg
  }

  /** The average after a soft reset: every component moves by `factor` toward 0.5. */
  function SoftResetOf(avg: FeatureVector, factor: real): (r: FeatureVector)
  {
    seq(NumFeatures, i requires 0 <= i < NumFeatures => Blend(avg[i], 0.5, factor))
  }

  /** A weighted mean of a and b with weight in [0,1] lies between them. */
  lemma BetweenEnds(a: real, b: real, alpha: real)
    requires 0.0 <= alpha <= 1.0
    ensures a <= b ==> a <= Blend(a, b, alpha) <= b
    ensures b <= a ==> b <= Blend(a, b, alpha) <= a
  {
    assert (1.0 - alpha) * a + alpha * b == a + (b - a) * alpha;
    assert (1.0 - alpha) * a + alpha * b == b - (a - b) * (alpha - 1.0);
    if a <= b {
      var p := ScaleInUnit(b - a, alpha);
    } else {
      var p := ScaleInUnit(a - b, alpha);
      assert (b - a) * alpha == -p;
    }
  }

  /**
   * Every component of a moving-average step lies between the old value
   * and the song's value; so a profile inside [0,1] stays inside [0,1].
   */
  lemma EwmaBetween(avg: FeatureVector, x: FeatureVector, alpha: real)
    requires 0.0 <= alpha <= 1.0
    ensures forall i :: 0 <= i < NumFeatures ==>
      (avg[i] <= x[i] ==> avg[i] <= Ewma(avg, x, alpha)[i] <= x[i]) &&
      (x[i] <= avg[i] ==> x[i] <= Ewma(avg, x, alpha)[i] <= avg[i])
    ensures (forall i :: 0 <= i < NumFeatures ==> 0.0 <= avg[i] <= 1.0 && 0.0 <= x[i] <= 1.0) ==>
      forall i :: 0 <= i < NumFeatures ==> 0.0 <= Ewma(avg, x, alpha)[i] <= 1.0
  {
    forall i | 0 <= i < NumFeatures
      ensures (avg[i] <= x[i] ==> avg[i] <= Ewma(avg, x, alpha)[i] <= x[i]) &&
              (x[i] <= avg[i] ==> x[i] <= Ewma(avg, x, alpha)[i] <= avg[i])
    {
      EwmaAt(avg, x, alpha, i);
    }
  }

  /** Component `i` of a moving-average step lies between the old value and the song's value. */
  lemma EwmaAt(avg: FeatureVector, x: FeatureVector, alpha: real, i: int)
    requires 0.0 <= alpha <= 1.0 && 0 <= i < NumFeatures
    ensures avg[i] <= x[i] ==> avg[i] <= Ewma(avg, x, alpha)[i] <= x[i]
    ensures x[i] <= avg[i] ==> x[i] <= Ewma(avg, x, alpha)[i] <= avg[i]
  {
    BetweenEnds(avg[i], x[i], alpha);
  }

  /**
   * A soft reset with factor in [0,1] moves every component toward 0.5
   * without passing it; factor 0 changes nothing and factor 1 gives 0.5 everywhere.
   */
  lemma SoftResetTowardNeutral(avg: FeatureVector, factor: real)
    requires 0.0 <= factor <= 1.0
    ensures forall i :: 0 <= i < NumFeatures ==>
      (avg[i] <= 0.5 ==> avg[i] <= SoftResetOf(avg, factor)[i] <= 0.5) &&
      (avg[i] >= 0.5 ==> 0.5 <= SoftResetOf(avg, factor)[i] <= avg[i])
    ensures factor == 0.0 ==> SoftResetOf(avg, factor) == avg
    ensures factor == 1.0 ==> forall i :: 0 <= i < NumFeatures ==> SoftResetOf(avg, factor)[i] == 0.5
  {
    forall i | 0 <= i < NumFeatures
      ensures (avg[i] <= 0.5 ==> avg[i] <= SoftResetOf(avg, factor)[i] <= 0.5) &&
              (avg[i] >= 0.5 ==> 0.5 <= SoftResetOf(avg, factor)[i] <= avg[i])
    {
      BetweenEnds(avg[i], 0.5, factor);
    }
  }

  /** The first update, whatever its delta, copies the song's normalised features. */
  lemma FirstUpdateSeeds(avg: FeatureVector, x: FeatureVector, delta: int)
    ensures NextAverage(avg, false, x, delta) == x
  {
  }

  /** Once seeded, an update with a non-positive delta leaves the average alone. */
  lemma NonPositiveUpdateKeepsAverage(avg: FeatureVector, x: FeatureVector, delta: int)
    requires delta <= 0
    ensures NextAverage(avg, true, x, delta) == avg
  {
  }

  /** The user profile. */
  class UserProfile {
    const avg: array<real>
    var seeded: bool
    var totalInteractions: int

    /** The average vector has one slot per feature. */
    predicate Valid()
    {
      avg.Length == NumFeatures
    }

    /** A new profile: all-zero average, not seeded, no interactions. */
    constructor()
      ensures Valid() && fresh(avg)
      ensures avg[..] == ZeroVector && !seeded && totalInteractions == 0
    {
      avg := new real[NumFeatures](i => 0.0);
      seeded := false;
      totalInteractions := 0;
    }

    /** A copy of the average vector: one component per feature, as the array currently holds them. */
    function GetAverage(): (r: FeatureVector)
      requires Valid()
      reads avg
      ensures |r| == NumFeatures
      ensures forall i :: 0 <= i < NumFeatures ==> r[i] == avg[i]
    {
      avg[..]
    }

    /**
     * Feed one action on song `s` with feedback `delta` into the profile:
     * the first update seeds the average with the song's features, later
     * ones blend toward it only when `delta` is positive; every update counts.
     */
    method Update(s: Song, delta: int)
      requires Valid()
      modifies this, avg
      ensures Valid()
      ensures avg[..] == NextAverage(old(avg[..]), old(seeded), NormalizedFeatures(s.info.features), delta)
      ensures seeded
      ensures totalInteractions == old(totalInteractions) + 1
    {
      ghost var x := NormalizedFeatures(s.info.features);
      var pos := if delta > 0 then delta else 0;
      var alpha := Smoothing * (if pos < 1 then pos else 1) as real;
      if !seeded {
        for i := 0 to NumFeatures
          modifies avg
          invariant forall j :: 0 <= j < i ==> avg[j] == x[j]
        {
          avg[i] := FeatureNormByIndex(s.info.features, i);
        }
        seeded := true;
      } else if alpha > 0.0 {
        assert alpha == Smoothing;
        for i := 0 to NumFeatures
          modifies avg
          invariant forall j :: 0 <= j < i ==> avg[j] == Blend(old(avg[j]), x[j], alpha)
          invariant forall j :: i <= j < NumFeatures ==> avg[j] == old(avg[j])
        {
          var xi := FeatureNormByIndex(s.info.features, i);
          avg[i] := Blend(avg[i], xi, alpha);
        }
        assert forall j :: 0 <= j < NumFeatures ==> avg[..][j] == Ewma(old(avg[..]), x, Smoothing)[j];
      }
      totalInteractions := totalInteractions + 1;
    }

    /** Pull every component of the average toward 0.5 by `factor`. */
    method SoftReset(factor: real)
      requires Valid()
      modifies avg
      ensures avg[..] == SoftResetOf(old(avg[..]), factor)
    {
      for i := 0 to NumFeatures
        invariant forall j :: 0 <= j < i ==> avg[j] == Blend(old(avg[j]), 0.5, factor)
        invariant forall j :: i <= j < NumFeatures ==> avg[j] == old(avg[j])
      {
        avg[i] := Blend(avg[i], 0.5, factor);
      }
      assert forall j :: 0 <= j < NumFeatures ==> avg[..][j] == SoftResetOf(old(avg[..]), factor)[j];
    }
  }
}
