/**
 * Content similarity between a song and the user's average: a weighted
 * mean of per-feature closeness, over a weight table that falls back to a
 * built-in default, plus a cluster bonus, clamped to [0,1].
 */
module Similarity {
  import opened Features
  import opened Songs

  /** The entries of a feature-weight map, in the order the map is iterated. */
  type WeightTable = seq<(string, real)>

  /** No feature name appears twice in the table (it stands for a map). */
  predicate DistinctNames(W: WeightTable)
  {
    forall i, j :: 0 <= i < j < |W| ==> W[i].0 != W[j].0
  }

  /** The fallback weights. */
  const DefaultWeights: WeightTable := [
    ("danceability", 0.20), ("energy", 0.20), ("valence", 0.15),
    ("instrumentalness", 0.10), ("liveness", 0.10), ("acousticness", 0.05),
    ("speechiness", 0.05), ("tempo", 0.05), ("loudness", 0.05), ("duration_ms", 0.05)
  ]

  /**
   * The similarity engine's state: the weights loaded from outside (empty
   * when none were loaded) and the cluster affinity bonus as a function of
   * the user average.
   */
  datatype Engine = Engine(loaded: WeightTable, affinity: FeatureVector -> real)

  /** The weights in use: the loaded ones, or the default when none are loaded. */
  function ActiveWeights(e: Engine): (W: WeightTable)
    ensures |e.loaded| == 0 ==> W == DefaultWeights
    ensures |e.loaded| > 0 ==> W == e.loaded
  {
    if |e.loaded| == 0 then DefaultWeights else e.loaded
  }

  function Abs(x: real): real
  {
    if x < 0.0 then -x else x
  }

  /** Closeness of two normalised values: 1 minus their distance, never below 0. */
  function FeatureSimilarity(sv: real, uv: real): (r: real)
    ensures 0.0 <= r <= 1.0
    ensures r == 1.0 <==> sv == uv
  {
    var sim := 1.0 - Abs(sv - uv);
    if sim < 0.0 then 0.0 else sim
  }

  /** The weight an entry adds to the weight sum: 0 for a name outside the vocabulary. */
  function EntryWeight(entry: (string, real)): real
  {
    if FeatureIndex(entry.0) < 0 then 0.0 else entry.1
  }

  /** Closeness of the song and the user average on the feature at `idx`. */
  function Closeness(f: RawFeatures, avg: FeatureVector, idx: int): (r: real)
    requires 0 <= idx < NumFeatures
    ensures 0.0 <= r <= 1.0
    ensures r == 1.0 <==> avg[idx] == FeatureNormByIndex(f, idx)
  {
    FeatureSimilarity(FeatureNormByIndex(f, idx), avg[idx])
  }

  /** A closeness scaled by its weight. */
  function Weighted(w: real, c: real): real
  {
    w * c
  }

  /** A non-negative weight scaling a closeness in [0,1] gives at most the weight. */
  lemma WeightedInRange(w: real, c: real)
    requires w >= 0.0 && 0.0 <= c <= 1.0
    ensures 0.0 <= Weighted(w, c) <= w
  {
    var p := ScaleInUnit(w, c);
  }

  /** What an entry adds to the accumulator: its weight times the closeness on its feature. */
  function EntryTerm(entry: (string, real), f: RawFeatures, avg: FeatureVector): real
  {
    var idx := FeatureIndex(entry.0);
    if idx < 0 then 0.0 else Weighted(entry.1, Closeness(f, avg, idx))
  }

  /** The accumulated weighted closeness over the table. */
  function Acc(W: WeightTable, f: RawFeatures, avg: FeatureVector): real
  {
    if |W| == 0 then 0.0 else Acc(W[..|W| - 1], f, avg) + EntryTerm(W[|W| - 1], f, avg)
  }

  /** The accumulated weight over the table. */
  function WeightSum(W: WeightTable): real
  {
    if |W| == 0 then 0.0 else WeightSum(W[..|W| - 1]) + EntryWeight(W[|W| - 1])
  }

  /** The similarity before the bonus: the weighted mean, or the raw accumulator when the weights do not sum to a positive value. */
  function BaseSimilarity(W: WeightTable, f: RawFeatures, avg: FeatureVector): real
  {
    var acc := Acc(W, f, avg);
    var wsum := WeightSum(W);
    if wsum > 0.0 then acc / wsum else acc
  }

  /** The similarity: base plus bonus, clamped to [0,1] whatever the weights. */
  function SimilarityOf(W: WeightTable, f: RawFeatures, avg: FeatureVector, bonus: real): (r: real)
    ensures 0.0 <= r <= 1.0
  {
    Clamp(BaseSimilarity(W, f, avg) + bonus, 0.0, 1.0)
  }

  /** The similarity function the ranking key uses, bound to an engine. */
  function MlSimilarity(e: Engine): (sim: SimFn)
    ensures forall f, v :: sim(f, v) == SimilarityOf(ActiveWeights(e), f, v, e.affinity(v))
    ensures forall f, v :: 0.0 <= sim(f, v) <= 1.0
  {
    (f: RawFeatures, v: FeatureVector) => SimilarityOf(ActiveWeights(e), f, v, e.affinity(v))
  }

  /**
   * The similarity of song `s` to `userAvg`, accumulated entry by entry
   * over the active weights.
   */
  method ComputeSimilarity(e: Engine, s: Song, userAvg: FeatureVector) returns (r: real)
    ensures r == SimilarityOf(ActiveWeights(e), s.info.features, userAvg, e.affinity(userAvg))
  {
    var W := ActiveWeights(e);
    var acc, wsum := 0.0, 0.0;
    for n := 0 to |W|
      invariant acc == Acc(W[..n], s.info.features, userAvg)
      invariant wsum == WeightSum(W[..n])
    {
      AccStep(W, n, s.info.features, userAvg);
      var idx := FeatureIndex(W[n].0);
      if idx >= 0 {
        var w := W[n].1;
        wsum := wsum + w;
        var sv := FeatureNormByIndex(s.info.features, idx);
        var uv := userAvg[idx];
        var sim := 1.0 - Abs(sv - uv);
        if sim < 0.0 { sim := 0.0; }
        assert sim == Closeness(s.info.features, userAvg, idx);
        acc := acc + Weighted(w, sim);
      }
    }
    assert W[..|W|] == W;
    var base := if wsum > 0.0 then acc / wsum else acc;
    base := Clamp(base + e.affinity(userAvg), 0.0, 1.0);
    r := base;
  }

  /** Accumulating one more entry adds its term and its weight. */
  lemma AccStep(W: WeightTable, n: nat, f: RawFeatures, avg: FeatureVector)
    requires n < |W|
    ensures Acc(W[..n + 1], f, avg) == Acc(W[..n], f, avg) + EntryTerm(W[n], f, avg)
    ensures WeightSum(W[..n + 1]) == WeightSum(W[..n]) + EntryWeight(W[n])
  {
    assert W[..n + 1][..n] == W[..n];
  }

  // ---------------------------------------------------------------------
  // Properties
  // ---------------------------------------------------------------------

  /** The sum of all weights in the table, whatever their names. */
  function TotalWeight(W: WeightTable): real
  {
    if |W| == 0 then 0.0 else TotalWeight(W[..|W| - 1]) + W[|W| - 1].1
  }

  /** When every name is in the vocabulary, the weight sum is the total of the weights. */
  lemma {:induction false} WeightSumOfKnownNames(W: WeightTable)
    requires forall i :: 0 <= i < |W| ==> FeatureIndex(W[i].0) >= 0
    ensures WeightSum(W) == TotalWeight(W)
  {
    if |W| > 0 {
      var init := W[..|W| - 1];
      assert forall i :: 0 <= i < |init| ==> init[i] == W[i];
      WeightSumOfKnownNames(init);
    }
  }

  /** The default table names each vocabulary feature once, in vocabulary order, with weights summing to 1. */
  lemma DefaultWeightsCoverVocabulary()
    ensures |DefaultWeights| == NumFeatures
    ensures forall i :: 0 <= i < NumFeatures ==> DefaultWeights[i].0 == FeatureNames[i]
    ensures DistinctNames(DefaultWeights)
    ensures WeightSum(DefaultWeights) == 1.0
  {
    NamesDistinct();
    DefaultNamesInOrder();
    DefaultWeightSum();
  }

  /** The default table lists the vocabulary in order. */
  lemma DefaultNamesInOrder()
    ensures |DefaultWeights| == NumFeatures
    ensures forall i :: 0 <= i < NumFeatures ==> DefaultWeights[i].0 == FeatureNames[i]
  {
  }

  /** Every default name is in the vocabulary, so the default weight sum is their total, 1. */
  lemma DefaultWeightSum()
    ensures WeightSum(DefaultWeights) == 1.0
  {
    DefaultNamesInOrder();
    forall i | 0 <= i < |DefaultWeights|
      ensures FeatureIndex(DefaultWeights[i].0) >= 0
    {
      FeatureIndexOfName(i);
    }
    WeightSumOfKnownNames(DefaultWeights);
    DefaultTotal();
  }

  /** The default weights add up to 1. */
  lemma DefaultTotal()
    ensures TotalWeight(DefaultWeights) == 1.0
  {
    var W := DefaultWeights;
    assert W[..10] == W;
    assert W[..10][..9] == W[..9];
    assert W[..9][..8] == W[..8];
    assert W[..8][..7] == W[..7];
    assert W[..7][..6] == W[..6];
    assert W[..6][..5] == W[..5];
    assert W[..5][..4] == W[..4];
    assert W[..4][..3] == W[..3];
    assert W[..3][..2] == W[..2];
    assert W[..2][..1] == W[..1];
    assert W[..1][..0] == [];
    assert TotalWeight(W[..1]) == 0.20;
    assert TotalWeight(W[..2]) == 0.40;
    assert TotalWeight(W[..3]) == 0.55;
    assert TotalWeight(W[..4]) == 0.65;
    assert TotalWeight(W[..5]) == 0.75;
    assert TotalWeight(W[..6]) == 0.80;
    assert TotalWeight(W[..7]) == 0.85;
    assert TotalWeight(W[..8]) == 0.90;
    assert TotalWeight(W[..9]) == 0.95;
  }

  /** Only the entries whose name is in the vocabulary, in table order. */
  function KnownEntries(W: WeightTable): (K: WeightTable)
    ensures forall i :: 0 <= i < |K| ==> FeatureIndex(K[i].0) >= 0
    ensures |K| <= |W|
  {
    if |W| == 0 then []
    else KnownEntries(W[..|W| - 1]) + (if FeatureIndex(W[|W| - 1].0) >= 0 then [W[|W| - 1]] else [])
  }

  /** Entries with a name outside the vocabulary add to neither the accumulator nor the weight sum. */
  lemma {:induction false} UnknownNamesIgnored(W: WeightTable, f: RawFeatures, avg: FeatureVector)
    ensures Acc(KnownEntries(W), f, avg) == Acc(W, f, avg)
    ensures WeightSum(KnownEntries(W)) == WeightSum(W)
  {
    if |W| > 0 {
      UnknownNamesIgnored(W[..|W| - 1], f, avg);
      UnknownNamesStep(W, f, avg);
    }
  }

  /** One more entry keeps the known entries' totals equal to the table's. */
  lemma UnknownNamesStep(W: WeightTable, f: RawFeatures, avg: FeatureVector)
    requires |W| > 0
    requires Acc(KnownEntries(W[..|W| - 1]), f, avg) == Acc(W[..|W| - 1], f, avg)
    requires WeightSum(KnownEntries(W[..|W| - 1])) == WeightSum(W[..|W| - 1])
    ensures Acc(KnownEntries(W), f, avg) == Acc(W, f, avg)
    ensures WeightSum(KnownEntries(W)) == WeightSum(W)
  {
    var init, last := W[..|W| - 1], W[|W| - 1];
    var KI := KnownEntries(init);
    if FeatureIndex(last.0) >= 0 {
      assert KnownEntries(W) == KI + [last];
      AccSnoc(KI, last, f, avg);
    } else {
      assert KnownEntries(W) == KI + [] == KI;
      UnknownEntry(last, f, avg);
    }
  }

  /** An entry whose name is outside the vocabulary adds nothing. */
  lemma UnknownEntry(e: (string, real), f: RawFeatures, avg: FeatureVector)
    requires FeatureIndex(e.0) < 0
    ensures EntryTerm(e, f, avg) == 0.0 && EntryWeight(e) == 0.0
  {
  }

  /** Appending an entry adds its term to the accumulator and its weight to the weight sum. */
  lemma AccSnoc(W: WeightTable, x: (string, real), f: RawFeatures, avg: FeatureVector)
    ensures Acc(W + [x], f, avg) == Acc(W, f, avg) + EntryTerm(x, f, avg)
    ensures WeightSum(W + [x]) == WeightSum(W) + EntryWeight(x)
  {
    assert (W + [x])[..|W|] == W;
  }

  /** With no entry naming a vocabulary feature, accumulator and weight sum are 0 and only the bonus remains. */
  lemma {:induction false} NoUsableEntries(W: WeightTable, f: RawFeatures, avg: FeatureVector, bonus: real)
    requires forall i :: 0 <= i < |W| ==> FeatureIndex(W[i].0) < 0
    ensures Acc(W, f, avg) == 0.0 && WeightSum(W) == 0.0
    ensures SimilarityOf(W, f, avg, bonus) == Clamp(bonus, 0.0, 1.0)
  {
    if |W| > 0 {
      NoUsableEntries(W[..|W| - 1], f, avg, bonus);
    }
  }

  /** When the weight sum is not positive, the pre-bonus similarity is the raw accumulator. */
  lemma ZeroWeightSumUsesAccumulator(W: WeightTable, f: RawFeatures, avg: FeatureVector)
    requires WeightSum(W) <= 0.0
    ensures BaseSimilarity(W, f, avg) == Acc(W, f, avg)
  {
  }

  /** All weights are non-negative. */
  predicate NonNegativeWeights(W: WeightTable)
  {
    forall i :: 0 <= i < |W| ==> W[i].1 >= 0.0
  }

  /** With non-negative weights the accumulator lies between 0 and the weight sum. */
  lemma {:induction false} AccWithinWeightSum(W: WeightTable, f: RawFeatures, avg: FeatureVector)
    requires NonNegativeWeights(W)
    ensures 0.0 <= Acc(W, f, avg) <= WeightSum(W)
  {
    if |W| > 0 {
      var init, last := W[..|W| - 1], W[|W| - 1];
      AccWithinWeightSum(init, f, avg);
      assert W[..|W| - 1] == init;
      var idx := FeatureIndex(last.0);
      if idx >= 0 {
        WeightedInRange(last.1, Closeness(f, avg, idx));
        assert EntryWeight(last) == last.1;
      } else {
        assert EntryTerm(last, f, avg) == 0.0 && EntryWeight(last) == 0.0;
      }
    }
  }

  /** With non-negative weights of positive sum, the pre-bonus similarity is a weighted mean in [0,1]. */
  lemma WeightedMeanInUnit(W: WeightTable, f: RawFeatures, avg: FeatureVector)
    requires NonNegativeWeights(W) && WeightSum(W) > 0.0
    ensures 0.0 <= BaseSimilarity(W, f, avg) <= 1.0
  {
    AccWithinWeightSum(W, f, avg);
    RatioInUnit(Acc(W, f, avg), WeightSum(W));
  }

  /** A non-negative value over a larger positive one lies in [0,1]. */
  lemma RatioInUnit(a: real, b: real)
    requires 0.0 <= a <= b && b > 0.0
    ensures 0.0 <= a / b <= 1.0
  {
    var q := a / b;
    assert q * b == a;
  }

  /** The user average agrees with the song's normalised features on every feature the table names. */
  predicate AgreesOnMapped(W: WeightTable, f: RawFeatures, avg: FeatureVector)
  {
    forall i :: 0 <= i < |W| && 0 <= FeatureIndex(W[i].0) ==>
      avg[FeatureIndex(W[i].0)] == FeatureNormByIndex(f, FeatureIndex(W[i].0))
  }

  /** Where the user average matches the song, every entry adds its full weight to the accumulator. */
  lemma {:induction false} AccOnMatch(W: WeightTable, f: RawFeatures, avg: FeatureVector)
    requires AgreesOnMapped(W, f, avg)
    ensures Acc(W, f, avg) == WeightSum(W)
  {
    if |W| > 0 {
      AgreesOnFront(W, f, avg);
      AccOnMatch(W[..|W| - 1], f, avg);
      MatchedEntry(W[|W| - 1], f, avg);
    }
  }

  /** Agreement on a table is agreement on its front. */
  lemma AgreesOnFront(W: WeightTable, f: RawFeatures, avg: FeatureVector)
    requires |W| > 0 && AgreesOnMapped(W, f, avg)
    ensures AgreesOnMapped(W[..|W| - 1], f, avg)
  {
    var init := W[..|W| - 1];
    forall i | 0 <= i < |init| && 0 <= FeatureIndex(init[i].0)
      ensures avg[FeatureIndex(init[i].0)] == FeatureNormByIndex(f, FeatureIndex(init[i].0))
    {
      assert init[i] == W[i];
    }
  }

  /** An entry whose feature the user average matches adds its whole weight. */
  lemma MatchedEntry(e: (string, real), f: RawFeatures, avg: FeatureVector)
    requires 0 <= FeatureIndex(e.0) ==> avg[FeatureIndex(e.0)] == FeatureNormByIndex(f, FeatureIndex(e.0))
    ensures EntryTerm(e, f, avg) == EntryWeight(e)
  {
    var idx := FeatureIndex(e.0);
    if idx >= 0 {
      assert Closeness(f, avg, idx) == 1.0;
    }
  }

  /**
   * A song compared with a user average equal to its own normalised
   * features, under non-negative weights of positive sum and no bonus,
   * has similarity exactly 1.
   */
  lemma SimilarityOfOwnFeatures(W: WeightTable, f: RawFeatures, avg: FeatureVector)
    requires NonNegativeWeights(W) && WeightSum(W) > 0.0
    requires AgreesOnMapped(W, f, avg)
    ensures SimilarityOf(W, f, avg, 0.0) == 1.0
  {
    AccOnMatch(W, f, avg);
    SelfRatio(WeightSum(W));
  }

  lemma SelfRatio(b: real)
    requires b > 0.0
    ensures b / b == 1.0
  {
  }
}
