/**
 * A song: immutable catalogue data plus one mutable feedback score, the
 * index-based feature accessors, the interaction-dependent blend schedule
 * and the final ranking key.
 */
module Songs {
  import opened Wrappers
  import opened Features

  /** The raw audio features of a song, as read from the catalogue. */
  datatype RawFeatures = RawFeatures(
    danceability: real,
    energy: real,
    key: int,
    loudness: real,        // dB
    mode: int,
    speechiness: real,
    acousticness: real,
    instrumentalness: real,
    liveness: real,
    valence: real,
    tempo: real,
    durationMs: int)

  /** All fields a song has as a default-constructed catalogue record. */
  const EmptyFeatures := RawFeatures(0.0, 0.0, 0, 0.0, 0, 0.0, 0.0, 0.0, 0.0, 0.0, 0.0, 0)

  /** Identity and metadata of a song, together with its popularity (0..100) and raw features. */
  datatype SongInfo = SongInfo(
    trackId: string,
    trackName: string,
    trackArtist: string,
    popularity: int,
    albumId: string,
    albumName: string,
    albumReleaseDate: string,
    playlistName: string,
    playlistId: string,
    playlistGenre: string,
    playlistSubgenre: string,
    features: RawFeatures)

  /** The raw value of the feature with the given vocabulary name (0 for any other name). */
  function FieldByName(f: RawFeatures, name: string): real
  {
    if name == "danceability" then f.danceability
    else if name == "energy" then f.energy
    else if name == "valence" then f.valence
    else if name == "instrumentalness" then f.instrumentalness
    else if name == "liveness" then f.liveness
    else if name == "acousticness" then f.acousticness
    else if name == "speechiness" then f.speechiness
    else if name == "tempo" then f.tempo
    else if name == "loudness" then f.loudness
    else if name == "duration_ms" then f.durationMs as real
    else 0.0
  }

  /** The raw feature at vocabulary index `i`, or 0 outside 0..9. */
  function FeatureByIndex(f: RawFeatures, i: int): (r: real)
    ensures !(0 <= i < NumFeatures) ==> r == 0.0
  {
    match i
    case 0 => f.danceability
    case 1 => f.energy
    case 2 => f.valence
    case 3 => f.instrumentalness
    case 4 => f.liveness
    case 5 => f.acousticness
    case 6 => f.speechiness
    case 7 => f.tempo
    case 8 => f.loudness
    case 9 => f.durationMs as real
    case _ => 0.0
  }

  /** Index i selects exactly the field named FeatureNames[i]. */
  lemma FeatureByIndexFollowsNames(f: RawFeatures, i: int)
    requires 0 <= i < NumFeatures
    ensures FeatureByIndex(f, i) == FieldByName(f, FeatureNames[i])
  {
    NamesDistinct();
    assert FeatureNames[i] in FeatureNames;
    match i
    case 0 => assert FeatureNames[0] == "danceability";
    case 1 => assert FeatureNames[1] == "energy";
    case 2 => assert FeatureNames[2] == "valence";
    case 3 => assert FeatureNames[3] == "instrumentalness";
    case 4 => assert FeatureNames[4] == "liveness";
    case 5 => assert FeatureNames[5] == "acousticness";
    case 6 => assert FeatureNames[6] == "speechiness";
    case 7 => assert FeatureNames[7] == "tempo";
    case 8 => assert FeatureNames[8] == "loudness";
    case 9 => assert FeatureNames[9] == "duration_ms";
  }

  /** The normalised feature at vocabulary index `i`. */
  function FeatureNormByIndex(f: RawFeatures, i: int): (r: real)
    requires 0 <= i < NumFeatures
    ensures 0.0 <= r <= 1.0
  {
    Norm(FeatureNames[i], FeatureByIndex(f, i))
  }

  /** The normalised feature at index i is the normalised raw field of that name. */
  lemma FeatureNormByName(f: RawFeatures, i: int)
    requires 0 <= i < NumFeatures
    ensures FeatureNormByIndex(f, i) == Norm(FeatureNames[i], FieldByName(f, FeatureNames[i]))
  {
    FeatureByIndexFollowsNames(f, i);
  }

  /** The whole normalised feature vector of a song. */
  function NormalizedFeatures(f: RawFeatures): (v: FeatureVector)
    ensures forall i :: 0 <= i < NumFeatures ==> v[i] == FeatureNormByIndex(f, i)
    ensures forall i :: 0 <= i < NumFeatures ==> 0.0 <= v[i] <= 1.0
  {
    seq(NumFeatures, i requires 0 <= i < NumFeatures => FeatureNormByIndex(f, i))
  }

  // ---------------------------------------------------------------------
  // Blend schedule
  // ---------------------------------------------------------------------

  /** The three blend weights: content similarity, feedback and popularity. */
  datatype Weights = Weights(alpha: real, beta: real, gamma: real)

  /** The interaction count seen by the schedule: capped to [0, 200]. */
  function ScheduleCount(total: int): (t: int)
    ensures 0 <= t <= 200
    ensures 0 <= total <= 200 ==> t == total
    ensures total < 0 ==> t == 0
    ensures total > 200 ==> t == 200
  {
    if total < 0 then 0 else if total > 200 then 200 else total
  }

  /**
   * The schedule in closed form: with x the capped count over 200, the
   * feedback weight grows linearly from 0.15 to 0.65, the similarity weight
   * falls from 0.70 to 0.30 and popularity takes the rest.
   */
  function Schedule(total: int): Weights
  {
    var x := ScheduleCount(total) as real / 200.0;
    var beta := 0.15 + 0.50 * x;
    var alpha := 0.70 - 0.40 * x;
    Weights(alpha, beta, 1.0 - (alpha + beta))
  }

  /** The weights are non-negative, sum to 1, and popularity keeps at least 0.05. */
  lemma ScheduleIsDistribution(total: int)
    ensures var w := Schedule(total);
      w.alpha >= 0.0 && w.beta >= 0.0 && w.gamma >= 0.05 &&
      w.alpha + w.beta + w.gamma == 1.0
  {
  }

  /** Counts at or below 0 all give the weights of 0; counts at or above 200 those of 200. */
  lemma ScheduleClamps(total: int)
    ensures total <= 0 ==> Schedule(total) == Schedule(0)
    ensures total >= 200 ==> Schedule(total) == Schedule(200)
  {
  }

  /** The endpoints of the schedule. */
  lemma ScheduleEndpoints()
    ensures Schedule(0) == Weights(0.70, 0.15, 0.15)
    ensures Schedule(200) == Weights(0.30, 0.65, 0.05)
  {
  }

  /** More interactions never lower the feedback weight and never raise the similarity weight. */
  lemma ScheduleMonotone(t1: int, t2: int)
    requires t1 <= t2
    ensures Schedule(t1).beta <= Schedule(t2).beta
    ensures Schedule(t1).alpha >= Schedule(t2).alpha
    ensures Schedule(t1).gamma >= Schedule(t2).gamma
  {
    var c1, c2 := ScheduleCount(t1), ScheduleCount(t2);
    assert c1 <= c2;
    assert c1 as real / 200.0 <= c2 as real / 200.0;
  }

  /**
   * The schedule as computed step by step: cap the count, compute the
   * feedback and similarity weights, floor popularity at 0.05 and divide
   * all three by their sum.
   */
  method BlendWeights(totalInteractions: int) returns (alpha: real, beta: real, gamma: real)
    ensures Weights(alpha, beta, gamma) == Schedule(totalInteractions)
    ensures alpha >= 0.0 && beta >= 0.0 && gamma >= 0.05
    ensures alpha + beta + gamma == 1.0
  {
    var t := totalInteractions;
    if t < 0 { t := 0; }
    if t > 200 { t := 200; }
    beta := 0.15 + 0.50 * (t as real / 200.0);
    alpha := 0.70 - 0.40 * (t as real / 200.0);
    gamma := 1.0 - (alpha + beta);
    if gamma < 0.05 { gamma := 0.05; }
    var s := alpha + beta + gamma;
    assert s == 1.0;
    alpha := alpha / s;
    beta := beta / s;
    gamma := gamma / s;
  }

  // ---------------------------------------------------------------------
  // Final score
  // ---------------------------------------------------------------------

  /** A content-similarity function: raw song features and a user average to a similarity. */
  type SimFn = (RawFeatures, FeatureVector) -> real

  /** Rounding to the nearest integer, halves away from zero. */
  function RoundHalfAway(x: real): (r: int)
    ensures x - 0.5 <= r as real <= x + 0.5
    ensures x >= 0.0 ==> r >= 0
  {
    if x >= 0.0 then (x + 0.5).Floor else -((-x + 0.5).Floor)
  }

  /** Rounding is monotone. */
  lemma RoundMonotone(x: real, y: real)
    requires x <= y
    ensures RoundHalfAway(x) <= RoundHalfAway(y)
  {
    if x >= 0.0 {
      assert (x + 0.5).Floor <= (y + 0.5).Floor;
    } else if y < 0.0 {
      assert (-y + 0.5).Floor <= (-x + 0.5).Floor;
    }
  }

  /** Popularity mapped into [0,1]. */
  function PopularityShare(popularity: int): (p: real)
    ensures 0.0 <= p <= 1.0
  {
    Clamp(popularity as real / 100.0, 0.0, 1.0)
  }

  /**
   * The blended score in [0,1] before scaling: similarity (0 without a
   * similarity function), squashed feedback and popularity, weighted by the
   * schedule. `squash` stands for the logistic map of the feedback score.
   */
  function Combined(info: SongInfo, userScore: int, avg: FeatureVector, total: int,
                    sim: Option<SimFn>, squash: int -> real): real
  {
    var base := if sim.Some? then sim.value(info.features, avg) else 0.0;
    Blended(Schedule(total), base, squash(userScore), PopularityShare(info.popularity))
  }

  /** The weighted sum of the three signals. */
  function Blended(w: Weights, base: real, u: real, pop: real): real
  {
    w.alpha * base + w.beta * u + w.gamma * pop
  }

  /** The integer ranking key: the blended score in millionths, rounded. */
  function FinalScore(info: SongInfo, userScore: int, avg: FeatureVector, total: int,
                      sim: Option<SimFn>, squash: int -> real): int
  {
    RoundHalfAway(Combined(info, userScore, avg, total, sim, squash) * 1000000.0)
  }

  /** Scaling a non-negative weight by a factor in [0,1] gives a value between 0 and the weight. */
  lemma ScaleInUnit(w: real, a: real) returns (p: real)
    requires w >= 0.0 && 0.0 <= a <= 1.0
    ensures p == w * a && 0.0 <= p <= w
  {
    p := w * a;
    assert w * (1.0 - a) >= 0.0;
    assert w * (1.0 - a) == w - w * a;
  }

  /** A convex combination of values in [0,1] stays in [0,1]. */
  lemma ConvexInUnit(w: Weights, a: real, b: real, c: real)
    requires w.alpha >= 0.0 && w.beta >= 0.0 && w.gamma >= 0.0
    requires w.alpha + w.beta + w.gamma == 1.0
    requires 0.0 <= a <= 1.0 && 0.0 <= b <= 1.0 && 0.0 <= c <= 1.0
    ensures 0.0 <= Blended(w, a, b, c) <= 1.0
  {
    var x := ScaleInUnit(w.alpha, a);
    var y := ScaleInUnit(w.beta, b);
    var z := ScaleInUnit(w.gamma, c);
    assert Blended(w, a, b, c) == x + y + z;
    assert x + y + z <= w.alpha + w.beta + w.gamma;
  }

  /**
   * When both the similarity and the squashed feedback lie in [0,1], the
   * key lies in [0, 1000000].
   */
  lemma FinalScoreRange(info: SongInfo, userScore: int, avg: FeatureVector, total: int,
                        sim: Option<SimFn>, squash: int -> real)
    requires sim.Some? ==> 0.0 <= sim.value(info.features, avg) <= 1.0
    requires 0.0 <= squash(userScore) <= 1.0
    ensures 0 <= FinalScore(info, userScore, avg, total, sim, squash) <= 1000000
  {
    var base := if sim.Some? then sim.value(info.features, avg) else 0.0;
    ScheduleIsDistribution(total);
    ConvexInUnit(Schedule(total), base, squash(userScore), PopularityShare(info.popularity));
    ScaledKeyRange(Combined(info, userScore, avg, total, sim, squash));
  }

  /** A blended score in [0,1] gives a key in [0, 1000000]. */
  lemma ScaledKeyRange(c: real)
    requires 0.0 <= c <= 1.0
    ensures 0 <= RoundHalfAway(c * 1000000.0) <= 1000000
  {
    var scaled := ScaleInUnit(1000000.0, c);
    RoundMonotone(c * 1000000.0, 1000000.0);
    assert RoundHalfAway(1000000.0) == 1000000;
  }

  /** Without a similarity function the key is the key under a similarity that is always 0. */
  lemma FinalScoreWithoutSimilarity(info: SongInfo, userScore: int, avg: FeatureVector, total: int,
                                    squash: int -> real)
    ensures FinalScore(info, userScore, avg, total, None, squash)
         == FinalScore(info, userScore, avg, total, Some((f: RawFeatures, v: FeatureVector) => 0.0), squash)
  {
  }

  /** A song: catalogue data that never changes, and a feedback score that actions adjust. */
  class Song {
    const info: SongInfo
    var userScore: int

    /** A new song starts with feedback score 0. */
    constructor(info: SongInfo)
      ensures this.info == info && userScore == 0
    {
      this.info := info;
      userScore := 0;
    }

    /** The song's current ranking key under the given profile state. */
    function Score(avg: FeatureVector, total: int, sim: Option<SimFn>, squash: int -> real): (r: int)
      reads this
      ensures (sim.Some? ==> 0.0 <= sim.value(info.features, avg) <= 1.0) && 0.0 <= squash(userScore) <= 1.0 ==>
        0 <= r <= 1000000
      ensures sim.None? ==>
        r == FinalScore(info, userScore, avg, total, Some((f: RawFeatures, v: FeatureVector) => 0.0), squash)
    {
      FinalScoreWithoutSimilarity(info, userScore, avg, total, squash);
      if (sim.Some? ==> 0.0 <= sim.value(info.features, avg) <= 1.0) && 0.0 <= squash(userScore) <= 1.0 then
        FinalScoreRange(info, userScore, avg, total, sim, squash);
        FinalScore(info, userScore, avg, total, sim, squash)
      else
        FinalScore(info, userScore, avg, total, sim, squash)
    }
  }
}
