/**
 * The feature vocabulary: ten named numeric features in a fixed order,
 * the name-to-index lookup and the per-feature clamp-and-scale
 * normalisation into [0,1].
 */
module Features {

  /** Number of features in the vocabulary. */
  const NumFeatures: nat := 10

  /** The vocabulary, in the order shared by profiles, songs and weight tables. */
  const FeatureNames: seq<string> := [
    "danceability", "energy", "valence",
    "instrumentalness", "liveness", "acousticness",
    "speechiness", "tempo", "loudness", "duration_ms"
  ]

  /** A vector of normalised values, one per vocabulary entry. */
  type FeatureVector = v: seq<real> | |v| == 10
    witness [0.0, 0.0, 0.0, 0.0, 0.0, 0.0, 0.0, 0.0, 0.0, 0.0]

  /** The all-zero vector. */
  const ZeroVector: FeatureVector := [0.0, 0.0, 0.0, 0.0, 0.0, 0.0, 0.0, 0.0, 0.0, 0.0]

  /** The ten names are pairwise distinct. */
  lemma NamesDistinct()
    ensures |FeatureNames| == NumFeatures
    ensures forall i, j :: 0 <= i < j < NumFeatures ==> FeatureNames[i] != FeatureNames[j]
  {
    // the names already differ in their first two characters
    assert Prefix2(FeatureNames[0]) == "da";
    assert Prefix2(FeatureNames[1]) == "en";
    assert Prefix2(FeatureNames[2]) == "va";
    assert Prefix2(FeatureNames[3]) == "in";
    assert Prefix2(FeatureNames[4]) == "li";
    assert Prefix2(FeatureNames[5]) == "ac";
    assert Prefix2(FeatureNames[6]) == "sp";
    assert Prefix2(FeatureNames[7]) == "te";
    assert Prefix2(FeatureNames[8]) == "lo";
    assert Prefix2(FeatureNames[9]) == "du";
  }

  /** The first two characters of a string (all of it when shorter). */
  function Prefix2(s: string): string
  {
    if |s| >= 2 then s[..2] else s
  }

  /** Linear search of the vocabulary from position `i` on. */
  function IndexFrom(name: string, i: nat): (r: int)
    requires i <= NumFeatures
    ensures r == -1 || i <= r < NumFeatures
    ensures r >= 0 ==> FeatureNames[r] == name
    ensures r >= 0 ==> forall j :: i <= j < r ==> FeatureNames[j] != name
    ensures r == -1 <==> forall j :: i <= j < NumFeatures ==> FeatureNames[j] != name
    decreases NumFeatures - i
  {
    if i == NumFeatures then -1
    else if name == FeatureNames[i] then i
    else IndexFrom(name, i + 1)
  }

  /** Position of `name` in the vocabulary, or -1 when it is not a feature name. */
  function FeatureIndex(name: string): (r: int)
    ensures -1 <= r < NumFeatures
    ensures r >= 0 ==> FeatureNames[r] == name
    ensures r == -1 <==> name !in FeatureNames
  {
    IndexFrom(name, 0)
  }

  /** Looking up the i-th name finds exactly position i. */
  lemma FeatureIndexOfName(i: nat)
    requires i < NumFeatures
    ensures FeatureIndex(FeatureNames[i]) == i
  {
    NamesDistinct();
  }

  /** `v` limited to the interval [lo, hi]: first the lower bound, then the upper. */
  function Clamp(v: real, lo: real, hi: real): (r: real)
    requires lo <= hi
    ensures lo <= r <= hi
    ensures lo <= v <= hi ==> r == v
    ensures v < lo ==> r == lo
    ensures v > hi ==> r == hi
  {
    var low := if v < lo then lo else v;
    if low > hi then hi else low
  }

  /** Clamping is monotone in its argument. */
  lemma ClampMonotone(v1: real, v2: real, lo: real, hi: real)
    requires lo <= hi && v1 <= v2
    ensures Clamp(v1, lo, hi) <= Clamp(v2, lo, hi)
  {
  }

  /** Normalisation of a raw feature value into [0,1], selected by the feature's name. */
  function Norm(name: string, value: real): (r: real)
    ensures 0.0 <= r <= 1.0
    ensures name == "tempo" ==>
      (value <= 0.0 ==> r == 0.0) && (value >= 250.0 ==> r == 1.0) &&
      (0.0 <= value <= 250.0 ==> r == value / 250.0)
    ensures name == "loudness" ==>
      (value <= -60.0 ==> r == 0.0) && (value >= 0.0 ==> r == 1.0) &&
      (-60.0 <= value <= 0.0 ==> r == (value + 60.0) / 60.0)
    ensures name == "duration_ms" ==>
      (value <= 0.0 ==> r == 0.0) && (value >= 600000.0 ==> r == 1.0) &&
      (0.0 <= value <= 600000.0 ==> r == value / 600000.0)
    ensures name != "tempo" && name != "loudness" && name != "duration_ms" ==>
      r == Clamp(value, 0.0, 1.0)
  {
    if name == "tempo" then
      Clamp(value, 0.0, 250.0) / 250.0
    else if name == "loudness" then
      (Clamp(value, -60.0, 0.0) + 60.0) / 60.0
    else if name == "duration_ms" then
      Clamp(value, 0.0, 600000.0) / 600000.0
    else
      Clamp(value, 0.0, 1.0)
  }

  /** For every feature outside the three ranged ones, Norm is the identity on [0,1] and idempotent. */
  lemma NormPlainFeature(name: string, value: real)
    requires name != "tempo" && name != "loudness" && name != "duration_ms"
    ensures 0.0 <= value <= 1.0 ==> Norm(name, value) == value
    ensures Norm(name, Norm(name, value)) == Norm(name, value)
  {
  }

  /** For every name, Norm is monotone non-decreasing in the value. */
  lemma NormMonotone(name: string, v1: real, v2: real)
    requires v1 <= v2
    ensures Norm(name, v1) <= Norm(name, v2)
  {
    if name == "tempo" {
      ClampMonotone(v1, v2, 0.0, 250.0);
    } else if name == "loudness" {
      ClampMonotone(v1, v2, -60.0, 0.0);
    } else if name == "duration_ms" {
      ClampMonotone(v1, v2, 0.0, 600000.0);
    } else {
      ClampMonotone(v1, v2, 0.0, 1.0);
    }
  }
}
