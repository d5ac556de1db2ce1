# Song ranking core: a verified model

This project models the ranking core of a single-user song recommender:

- A splay tree (`SongSplay`) whose ordering key is not stored in the nodes. Every comparison recomputes it from the song's mutable feedback score and the current user profile.
- The scoring pieces that key depends on:
  - the feature vocabulary and its normalisation;
  - the interaction-dependent blend schedule;
  - the weighted-average content similarity;
  - the user profile's moving average.
- The action-to-delta policy and the action names.
- The quoted-field CSV row splitter.
- The song catalogue and its CSV loader.
- The player controller, which dispatches user actions, counts them toward a periodic retraining, and loads songs into the ranking.

Modules, following the source's files:

| module | models |
|---|---|
| `SplayTree` | The node-moving logic as a pure datatype `Tree<T>` with the key as a parameter `key: T -> int`: insertion (ties go right), the two rotations, the zig / zig-zig / zig-zag splay, and the in-order walk. |
| `Ranking` | The `SongSplay` class. Its `root` field is reassigned by `Insert` and `Promote`, and it holds a fixed profile and scoring setup. At the start of each operation it takes a snapshot `key` of every song's current score (`KeyOf`). The ghost predicate `CurrentKey` states that the snapshot agrees with the songs and the profile. Nothing changes during one operation, so this is the key the source recomputes at each comparison. |
| `Songs` | Song records (`SongInfo`, `RawFeatures`), the `Song` class with its mutable `userScore`, the by-index feature accessors, the blend schedule (the step-by-step `BlendWeights` method, proved equal to a closed form `Schedule`), and the integer ranking key `FinalScore`. |
| `Features` | The ten feature names, `FeatureIndex`, `Clamp` and `Norm`. |
| `Profile` | The `UserProfile` class: an `array<real>` average updated by `for` loops, the seeded flag and the interaction counter. |
| `Similarity` | The weight table (the loaded map, or the default one), and the similarity both as a loop (`ComputeSimilarity`) and as fold functions (`Acc`, `WeightSum`, `SimilarityOf`). |
| `Actions` / `ActionPolicy` | The action enumeration, its names as printed, and the delta table. |
| `Csv` | `SplitRow` as a character loop. It is specified by a token scanner `Lex` followed by a field builder `Fields`, which follow the doubled-quote convention of RFC 4180, section 2, rules 5-7. |
| `Registry` | The `SongRegistry` class with its `byId` map, and the CSV loader. The loader reads the header, finds the column positions, and accepts, skips or rejects each row. |
| `Player` | The `PlayerController` class: `OnAction`, the retrain counter, `IngestSong` and `IngestFirstK`. |
| `Decimal` | The decimal rendering of the integer score in the in-order labels. |

The interaction counter grows only when the tree's promotion calls `update`. That happens for a non-negative delta (src/SongSplay.cpp:14), and never for "not interested" (Implementation/PlayerController.hpp:36-38). So negative feedback does not count as an interaction.

## Model

| member | source | states |
|---|---|---|
| SplayTree.RightRotate | src/SongSplay.cpp:40-42 | A right rotation keeps the in-order sequence, and its new root is the old left child. |
| SplayTree.LeftRotate | src/SongSplay.cpp:43-45 | A left rotation keeps the in-order sequence, and its new root is the old right child. |
| SplayTree.Splay | src/SongSplay.cpp:47-75 | Splaying keeps the in-order sequence, and so the node multiset. The result is empty exactly when the input is. When the root already carries the key, the tree comes back unchanged. |
| SplayTree.SplayBringsKeyToRoot | src/SongSplay.cpp:47-75 | On a tree whose in-order keys are non-decreasing and which holds a node with key `k`, splaying at `k` leaves a node with key `k` at the root. |
| SplayTree.SplayIdempotent | src/SongSplay.cpp:47-51 | Splaying a sorted tree again at a key it holds changes nothing. |
| SplayTree.Insert | src/SongSplay.cpp:23-30 | The recursive insertion never yields an empty tree. What it adds, and where, is stated by the next two rows. |
| SplayTree.InsertAddsOne | src/SongSplay.cpp:23-30 | The in-order multiset after insertion is the old one plus exactly the new song. |
| SplayTree.InsertPosition | src/SongSplay.cpp:25-28 | On a sorted tree, the song lands at a position `p` of the in-order sequence. Everything before `p` has a key at most the song's, and everything after has a strictly larger key, because ties go right. |
| SplayTree.InsertSorted | src/SongSplay.cpp:23-30 | Insertion keeps the in-order keys non-decreasing. |
| SplayTree.InsertAndSplay | src/SongSplay.cpp:6-10 | Insert followed by a splay at the song's key adds exactly that song. On a sorted tree the result stays sorted, is non-empty, and has a root with the song's key. |
| SplayTree.InsertAtLeaf | src/SongSplay.cpp:23-30 | Insertion follows a path of left and right steps from the root to an empty subtree, and replaces exactly that subtree by a single node holding the song. The rest of the tree is unchanged. |
| SplayTree.ElementsInsert | src/SongSplay.cpp:23-30 | The node set after insertion is the old one plus the new song. |
| SplayTree.InsertCongruent | src/SongSplay.cpp:25-26 | Insertion depends on the key only through the keys of the tree's songs and the new song. Two keys that agree there give the same tree. |
| SplayTree.SplayCongruent | src/SongSplay.cpp:47-75 | Splaying depends on the key only through the keys of the tree's songs. Two keys that agree on them give the same tree. |
| SplayTree.InsertSplayCongruent | src/SongSplay.cpp:6-10 | Insert followed by a splay under a key that agrees with another on the songs involved gives the same tree as under the other, and adds exactly the new song to the node set. |
| SplayTree.SameElements | src/SongSplay.cpp:32-38 | Two trees with the same in-order walk have the same node set. |
| SplayTree.InsertEachAdds | src/SongSplay.cpp:6-10 | Inserting and splaying a list of songs one after another adds exactly the list's songs to the multiset. |
| SplayTree.InsertEachSorted | src/SongSplay.cpp:6-10 | Inserting and splaying a list of songs one after another into a sorted tree keeps it sorted. |
| SplayTree.Elements | src/SongSplay.cpp:32-38 | Every song of the in-order walk is in the node set. |
| SplayTree.ElementsExact | src/SongSplay.cpp:32-38 | A song is in the node set exactly when the in-order walk lists it. |
| Ranking.SongSplay.constructor | include/SongSplay.hpp:17-18 | A new ranking is empty and keeps the profile, similarity and squash it was given. The fields are constants, so no operation replaces them. |
| Ranking.SongSplay.KeyOf | src/SongSplay.cpp:25-26 | The key snapshot gives each song of the given set its current score under the current profile. |
| Ranking.SongSplay.CurrentKeysAgree | src/SongSplay.cpp:25-26 | Two snapshots of the current scores agree on every song both cover. |
| Ranking.SongSplay.Insert | src/SongSplay.cpp:6-10 | The new root is the old tree with the song inserted and then splayed at the song's key, under the key of the current scores. |
| Ranking.SongSplay.Promote | src/SongSplay.cpp:12-17 | The song's score grows by exactly `delta`. The profile is updated if and only if `delta >= 0`, and is left entirely unchanged otherwise. The tree is splayed at the song's new key, and its in-order sequence, hence its node set, is unchanged. On a sorted tree holding the song, the root ends up with the song's key. |
| Ranking.SongSplay.Resplay | src/SongSplay.cpp:15-16 | Splaying at a song's freshly computed key keeps the in-order sequence. On a sorted tree holding the song, it brings the song's key to the root. |
| Ranking.SongSplay.InorderInto | src/SongSplay.cpp:32-38 | The recursive walk appends one label per node in left, node, right order. |
| Ranking.SongSplay.InorderLabels | src/SongSplay.cpp:19-21 | The listing is exactly the label of each song of the in-order sequence, scored by the current key. |
| Ranking.Labels | src/SongSplay.cpp:36 | There is one label per song. |
| Ranking.LabelsAt | src/SongSplay.cpp:36 | Label `i` is the track name of song `i` followed by its score. |
| Ranking.LabelsAppend | src/SongSplay.cpp:34-37 | Labelling a left part, a node and a right part gives the three label lists in that order. |
| Decimal.NatToString | src/SongSplay.cpp:36 | A natural number renders as at least one digit, with no leading zero. |
| Decimal.IntToString | src/SongSplay.cpp:36 | The rendering is non-empty and starts with a minus sign exactly for negative numbers. |
| Decimal.NatToStringRoundTrip | src/SongSplay.cpp:36 | Reading back the digits of `n` gives `n`. |
| Decimal.DigitsParse | src/SongSplay.cpp:36 | A non-empty string of digits parses to its value. |
| Decimal.NegativeRoundTrip | src/SongSplay.cpp:36 | A negative number's rendering parses back to it. |
| Decimal.IntToStringRoundTrip | src/SongSplay.cpp:36 | Every integer's rendering parses back to the integer. |
| Decimal.IntToStringInjective | src/SongSplay.cpp:36 | Distinct scores render differently. |
| Songs.FeatureByIndex | include/Song.hpp:47-61 | Any index outside 0..9 gives 0. |
| Songs.FeatureByIndexFollowsNames | include/Song.hpp:47-61 | Index `i` gives the raw feature named by vocabulary entry `i`. |
| Songs.FeatureNormByIndex | include/Song.hpp:63-66 | The normalised feature lies in [0,1]. |
| Songs.FeatureNormByName | include/Song.hpp:63-66 | The normalised feature at `i` is the normalisation, under vocabulary name `i`, of the raw feature at `i`. |
| Songs.NormalizedFeatures | include/Song.hpp:63-66 | The profile's view of a song: component `i` is the normalised feature `i`, and every component lies in [0,1]. |
| Songs.ScheduleCount | include/Song.hpp:72-73 | The interaction count is clamped to [0,200]. |
| Songs.BlendWeights | include/Song.hpp:69-80 | The step-by-step computation gives the closed-form schedule. The three weights are non-negative, popularity's weight is at least 0.05, and they sum to 1. |
| Songs.ScheduleIsDistribution | include/Song.hpp:74-79 | α and β are non-negative, γ is at least 0.05, and α + β + γ = 1. So the floor never fires over reals. |
| Songs.ScheduleClamps | include/Song.hpp:72-73 | Every count ≤ 0 gives the weights of count 0, and every count ≥ 200 gives those of count 200. |
| Songs.ScheduleEndpoints | include/Song.hpp:74-76 | The weights are (0.70, 0.15, 0.15) at count 0 and (0.30, 0.65, 0.05) at count 200. |
| Songs.ScheduleMonotone | include/Song.hpp:74-76 | As the count grows, β does not decrease, and neither α nor γ increases. |
| Songs.RoundHalfAway | include/Song.hpp:93 | Rounding lands within 0.5 of its argument and keeps non-negative values non-negative. |
| Songs.RoundMonotone | include/Song.hpp:93 | Rounding is monotone. |
| Songs.PopularityShare | include/Song.hpp:89 | Popularity divided by 100 is clamped into [0,1]. |
| Songs.ConvexInUnit | include/Song.hpp:92 | The blend of three values in [0,1], under weights that form a distribution, lies in [0,1]. |
| Songs.FinalScoreRange | include/Song.hpp:83-95 | When the similarity and the squashed feedback lie in [0,1], the integer key lies in [0, 1000000]. |
| Songs.ScaledKeyRange | include/Song.hpp:93 | A blended score in [0,1] scales and rounds to a key in [0, 1000000]. |
| Songs.FinalScoreWithoutSimilarity | include/Song.hpp:86 | Without a similarity function the base term is 0: the key equals the key under a similarity that is always 0. |
| Songs.Song.Score | include/Song.hpp:83-95 | The song's key is `FinalScore` of its record and feedback score. It lies in [0, 1000000] when the similarity and the squash map into [0,1] (`FinalScoreRange`). Without a similarity it equals the key under a similarity that is always 0 (`FinalScoreWithoutSimilarity`). |
| Songs.Song.constructor | include/Song.hpp:44 | A new song keeps its record and starts with feedback score 0. |
| Features.NamesDistinct | Features.hpp:8-12 | There are ten vocabulary names, pairwise distinct. |
| Features.IndexFrom | Features.hpp:14-19 | The search from position `i` returns the first matching position at or after `i`, or -1 exactly when there is none. |
| Features.FeatureIndex | Features.hpp:14-19 | The index lies in [-1, 9], names a matching entry when non-negative, and is -1 exactly for names outside the vocabulary. |
| Features.FeatureIndexOfName | Features.hpp:14-19 | The index of vocabulary name `i` is `i`. |
| Features.Clamp | Features.hpp:37-38 | The clamp lies in the bounds, is the identity inside them, and gives the nearer bound outside. |
| Features.ClampMonotone | Features.hpp:37-38 | Clamping is monotone. |
| Features.Norm | Features.hpp:25-39 | The normalisation always lies in [0,1]. Tempo is clamp(v, 0, 250) / 250, loudness is (clamp(v, -60, 0) + 60) / 60, and duration is clamp(v, 0, 600000) / 600000. Every other name gives the clamp to [0,1]. |
| Features.NormPlainFeature | Features.hpp:36-38 | For the other names, the normalisation is the identity on [0,1] and idempotent. |
| Features.NormMonotone | Features.hpp:25-39 | For every name, the normalisation is monotone in the value. |
| Profile.UserProfile.constructor | include/UserProfile.hpp:10-13 | A new profile has an all-zero average, is not seeded and has no interactions. |
| Profile.UserProfile.GetAverage | include/UserProfile.hpp:33-35 | A read-only view of the average: one component per feature, each equal to the array's current entry. The ranking key reads the average through it (`Ranking.SongSplay.KeyOf`, `CurrentKey`). |
| Profile.UserProfile.Update | include/UserProfile.hpp:16-31 | The new average is `NextAverage(old average, old seeded flag, the song's normalised features, delta)`. After the update the profile is seeded and the counter has grown by exactly 1, whatever the delta. |
| Profile.FirstUpdateSeeds | include/UserProfile.hpp:21-23 | On an unseeded profile, any delta sets the average to the song's normalised features. |
| Profile.NonPositiveUpdateKeepsAverage | include/UserProfile.hpp:19-24 | On a seeded profile, a delta ≤ 0 leaves the average unchanged. |
| Profile.EwmaBetween | include/UserProfile.hpp:25-28 | Every component of a moving-average step lies between its old value and the song's value, so [0,1] is preserved. |
| Profile.EwmaAt | include/UserProfile.hpp:27 | One component of the step lies between the old value and the song's value. |
| Profile.BetweenEnds | include/UserProfile.hpp:27 | A blend with weight in [0,1] lies between its two ends. |
| Profile.UserProfile.SoftReset | include/UserProfile.hpp:38-40 | The new average is the old one pulled toward 0.5 by `factor`. Only the average array may change, so the seeded flag and the counter keep their values. |
| Profile.SoftResetTowardNeutral | include/UserProfile.hpp:39 | For a factor in [0,1], each component moves toward 0.5 without overshooting. Factor 0 is the identity, and factor 1 sets every component to 0.5. |
| Similarity.ActiveWeights | include/ml_similarity.hpp:32 | An empty loaded table falls back to the default one; otherwise the loaded table is used. |
| Similarity.FeatureSimilarity | include/ml_similarity.hpp:39-40 | The per-feature similarity lies in [0,1], and is 1 exactly when the two values are equal. |
| Similarity.Closeness | include/ml_similarity.hpp:37-40 | The song's closeness to the user average on one feature lies in [0,1], and is 1 exactly when they agree on it. |
| Similarity.ComputeSimilarity | include/ml_similarity.hpp:31-47 | The accumulating loop over the active table computes `SimilarityOf`: the weighted mean with the zero-sum guard, plus the bonus, clamped. |
| Similarity.SimilarityOf | include/ml_similarity.hpp:43-46 | The similarity always lies in [0,1], even with negative weights. |
| Similarity.MlSimilarity | include/ml_similarity.hpp:56-58 | The similarity function handed to the score is `SimilarityOf` over the engine's active weights and bonus, and it always lies in [0,1]. |
| Similarity.AccStep | include/ml_similarity.hpp:34-42 | Each loop iteration adds the entry's term to the accumulator and the entry's weight to the weight sum. |
| Similarity.DefaultWeightsCoverVocabulary | include/ml_similarity.hpp:10-13 | The default table names the ten vocabulary features once each, and its weights sum to 1. |
| Similarity.DefaultWeightSum | include/ml_similarity.hpp:10-13 | The default weights, all with known names, sum to 1 in the accumulator. |
| Similarity.WeightSumOfKnownNames | include/ml_similarity.hpp:35-36 | When every name is known, the weight sum is the plain total of the weights. |
| Similarity.KnownEntries | include/ml_similarity.hpp:35-36 | The filtered table keeps only entries with vocabulary names and is no longer than the table. |
| Similarity.UnknownNamesIgnored | include/ml_similarity.hpp:35-36 | Dropping the entries with unknown names changes neither the accumulator nor the weight sum. |
| Similarity.NoUsableEntries | include/ml_similarity.hpp:43-45 | With no known name, the accumulator and the weight sum are both 0, and only the clamped bonus remains. |
| Similarity.ZeroWeightSumUsesAccumulator | include/ml_similarity.hpp:43 | When the weight sum is not positive, the base is the raw accumulator. |
| Similarity.AccWithinWeightSum | include/ml_similarity.hpp:36-41 | With non-negative weights, the accumulator lies between 0 and the weight sum. |
| Similarity.WeightedMeanInUnit | include/ml_similarity.hpp:43 | With non-negative weights of positive sum, the base lies in [0,1]. |
| Similarity.AccOnMatch | include/ml_similarity.hpp:36-41 | When the user average matches the song on every named feature, the accumulator equals the weight sum. |
| Similarity.SimilarityOfOwnFeatures | include/ml_similarity.hpp:36-45 | Take non-negative weights of positive sum and no bonus. If the user average agrees with the song's normalised value on every feature the table names, the similarity is exactly 1. |
| Actions.Ordinal | Action.hpp:7-16 | Each action sits at its declared position in the list of all actions. |
| Actions.AllActionsExact | Action.hpp:7-16 | There are exactly eight actions, each listed once. |
| Actions.ToCStr | Action.hpp:18-30 | Each action prints as its own enumerator name, in both directions, and never as "UNKNOWN". |
| Actions.ToCStrInjective | Action.hpp:18-30 | Distinct actions print differently. |
| ActionPolicy.Delta | ActionPolicy.hpp:10-22 | The delta table is +3, +1, +1, -3, -1, -4, -1000 and 0. The delta is positive exactly for LIKE, REPLAY and PLAY_COMPLETE, and zero exactly for PLAY_START. |
| ActionPolicy.NotInterestedIsMinimum | ActionPolicy.hpp:18 | NOT_INTERESTED has a strictly smaller delta than every other action. |
| Csv.SplitRow | UtilCSV.hpp:11-27 | The character loop gives the fields of the scanned line, and always at least one field. |
| Csv.FieldsCount | UtilCSV.hpp:19-25 | There is one field more than there are separators, i.e. commas outside quotes. |
| Csv.LexPlain | UtilCSV.hpp:14-24 | Outside quotes, a line with no quote character scans to one token per character. Each comma becomes a separator and every other character a field character, so rendering the tokens gives the line back. |
| Csv.FeedAvoids | UtilCSV.hpp:19-23 | Tokens with no field character `c`, built onto fields without `c`, give only fields without `c`. Used for the comma and for the quote. |
| Csv.JoinFeed | UtilCSV.hpp:19-25 | Joining with commas the fields built from tokens gives the open field followed by the tokens' characters. |
| Csv.PlainLineRoundTrip | UtilCSV.hpp:11-27 | A line with no quote character is cut at every comma. No field holds a comma, and joining the fields with commas rebuilds the line. |
| Csv.LexNoQuote | UtilCSV.hpp:16-18 | On a line with no doubled quote, every quote only toggles the quoted state, so the scan yields no quote character. |
| Csv.LoneQuotesNeverCopied | UtilCSV.hpp:16-18 | A quote that is not part of a doubled pair is never copied: on a line with no doubled quote, no field holds a quote. |
| Csv.StrayQuoteExample | UtilCSV.hpp:16-22 | A stray quote opens quoting and swallows the comma after it: `ab"c,d` splits into the single field `abc,d`. |
| Csv.LexLength | UtilCSV.hpp:14-24 | Scanning yields at most one token per character of the line. |
| Csv.FeedLength | UtilCSV.hpp:19-25 | Every field character lands in exactly one field and every separator in none. The fields' total length is the open and closed fields' length plus the number of field characters. |
| Csv.FieldsFitLine | UtilCSV.hpp:11-27 | The fields of any line, counting one separator between each two, are no longer than the line. In particular their total length is at most the line's length. |
| Csv.LexShift | UtilCSV.hpp:14-24 | Scanning a suffix of a concatenation is scanning the second part alone. |
| Csv.LexDoubledQuote | UtilCSV.hpp:17 | Inside quotes, a doubled quote yields one literal quote character. |
| Csv.LexInnerChar | UtilCSV.hpp:22-23 | Inside quotes, any character other than a quote, comma included, is copied into the field. |
| Csv.LexEscaped | UtilCSV.hpp:16-18 | An escaped field body, doubled quotes included, followed by its closing quote scans to the field's own characters. The closing quote toggles quoting off and is not copied. |
| Csv.QuoteScan | UtilCSV.hpp:16-18 | A quoted field scans to its characters, and scanning goes on unquoted after it. |
| Csv.LexRender | UtilCSV.hpp:14-24 | Quoted fields joined by commas scan to each field's characters with a separator between them. |
| Csv.FeedChars | UtilCSV.hpp:22-23 | Feeding a field's characters appends them to the open field. |
| Csv.FeedRender | UtilCSV.hpp:14-25 | Building fields from the scan of rendered fields closes exactly those fields. |
| Csv.QuotedRoundTrip | UtilCSV.hpp:11-27 | Any non-empty list of fields, written quoted with doubled quotes and joined by commas, splits back into the same fields. |
| Registry.SongRegistry.constructor | include/SongRegistry.hpp:11 | A new catalogue is empty. |
| Registry.SongRegistry.Get | include/SongRegistry.hpp:13-15 | The lookup is null exactly when no song is filed under the id. Otherwise it is the song filed there, and that song carries the id. |
| Registry.SongRegistry.AddSong | include/SongRegistry.hpp:17-21 | A null song changes nothing. Otherwise the song is filed under its id, replacing any earlier one, and every other id keeps its song. The size grows by one exactly for a new id. |
| Registry.SongRegistry.Size | include/SongRegistry.hpp:21 | The size is the number of distinct ids filed, and is 0 exactly for the empty catalogue. `AddSong` states that it grows by one exactly for a new id. |
| Registry.ColumnIndex | include/SongRegistry.hpp:28-29 | The header lookup returns the first column with that name, or -1 exactly when there is none. |
| Registry.FindColumn | include/SongRegistry.hpp:28-29 | The linear scan of the header computes `ColumnIndex`. |
| Registry.LocateColumns | include/SongRegistry.hpp:30-52 | Each column the loader reads is looked up by its own header name. |
| Registry.At | include/SongRegistry.hpp:58 | A field outside the row, or at a negative position, reads as the empty string. |
| Registry.NumberText | include/SongRegistry.hpp:63-82 | An empty numeric field is handed to the parser as "0", and any other text as it is. |
| Registry.ParseRowCases | include/SongRegistry.hpp:59-82 | A row is skipped exactly when its track id is missing or empty. It fails exactly when the id is present and one of the thirteen numeric fields does not parse. An accepted row keeps its id. |
| Registry.MissingColumnsReadEmpty | include/SongRegistry.hpp:61-82 | In an accepted row, each of the nine text columns the header lacks reads as the empty string, and each of the thirteen numeric columns it lacks reads as 0. |
| Registry.PresentColumnsParsed | include/SongRegistry.hpp:63-82 | In an accepted row, each of the thirteen numeric columns the header has holds what the parser makes of its field, with an empty field read as "0". |
| Registry.TotalParsersAccept | include/SongRegistry.hpp:63-82 | With parsers that accept every text, every row with a track id is accepted. |
| Registry.ScanPrefix | include/SongRegistry.hpp:54-84 | Reading one more line is one more step of the row loop. |
| Registry.ScanAccepted | include/SongRegistry.hpp:55-60 | Every accepted record has a non-empty id, and there are at most as many of them as there are non-empty data lines. |
| Registry.FailureIsFinal | include/SongRegistry.hpp:63-82 | Once a parser has rejected a field, later lines change nothing. |
| Registry.AddAllShape | include/SongRegistry.hpp:17-19 | After filing records in order, the ids present are the old ones plus the new ones. Records stay filed under their own ids, and the map grows by at most one entry per record. |
| Registry.UntouchedId | include/SongRegistry.hpp:18 | An id that no new record carries keeps its old entry, or stays absent. |
| Registry.LastRecordWins | include/SongRegistry.hpp:18 | The record filed under an id is the last one added with that id. |
| Registry.RepeatedIdCountsTwice | include/SongRegistry.hpp:54-85 | Two data lines accepted with one track id make the load report two rows, yet leave exactly one catalogue entry, the later line's record. |
| Registry.SongRegistry.LoadFromCsv | include/SongRegistry.hpp:24-86 | The result reports the accepted rows, or the parser failure, of `Load`, which reads a missing or empty file as no rows at all. The catalogue's records become the old ones with the accepted records filed in order, including those filed before a failure. Every id no accepted record carries keeps its very song object. Every id an accepted record carries maps to a newly made song with feedback score 0. |
| Registry.SongRegistry.LoadRows | include/SongRegistry.hpp:54-85 | The row loop returns the `Scan` outcome's report and files exactly the `Scan` outcome's records in order. Ids those records do not carry keep their song objects, and ids they carry map to newly made songs with feedback score 0. |
| Registry.SongRegistry.FileRecord | include/SongRegistry.hpp:57-83 | One accepted row becomes a new song with score 0, filed under its id; nothing else in the catalogue changes. |
| Registry.FilingStep | include/SongRegistry.hpp:83 | Filing one more new song keeps every untouched id on its old song and every filed id on a newly made song. |
| Registry.ScanStops | include/SongRegistry.hpp:63-82 | A rejected field ends the load: the whole file's outcome is a failure carrying the records before it. |
| Player.NextCounter | Implementation/PlayerController.hpp:51-54 | With a batch size of at least 1, the counter stays in [0, batch size) between calls. |
| Player.CounterCycles | Implementation/PlayerController.hpp:51-54 | Starting from 0 with a batch size of at least 1, after `k` actions the counter is `k mod every`, and `k div every` retrains have started. |
| Player.NonPositiveBatchRetrainsAlways | Implementation/PlayerController.hpp:51-54 | With a batch size ≤ 0, every action starts a retrain and the counter stays at 0. |
| Player.PlayerController.constructor | Implementation/PlayerController.hpp:13-24 | A new controller has a fresh empty profile and an empty ranking. The counter is 0, the batch size is 20, and there are no preload ids. |
| Player.PlayerController.SetRetrainBatch | Implementation/PlayerController.hpp:26 | Only the batch size changes. |
| Player.PlayerController.OnAction | Implementation/PlayerController.hpp:29-58 | An unknown id changes nothing. "Not interested" sets the song's score to 0, soft-resets the profile by 0.1 and leaves the tree alone. Every other action promotes the song by its delta. No other song's score changes. A known id counts one action, and a full batch starts a retrain and resets the count. The batch size and the preload ids never change. |
| Player.PlayerController.React | Implementation/PlayerController.hpp:35-41 | The "not interested" branch and the promote branch, each with its full effect on the song, the profile and the tree. |
| Player.PlayerController.CountAction | Implementation/PlayerController.hpp:51-54 | The counter becomes `NextCounter` of its old value, and the retrain count grows exactly when a batch is full. |
| Player.PlayerController.IngestSong | Implementation/PlayerController.hpp:61-63 | An id missing from the catalogue leaves the tree unchanged. A known id inserts its song, which the tree's multiset gains exactly. |
| Player.Registered | Implementation/PlayerController.hpp:66-68 | The songs collected are at most as many as the ids. |
| Player.RegisteredFromIds | Implementation/PlayerController.hpp:61-63 | Every song collected is filed under one of the ids, and ids that are all unknown collect nothing. |
| Player.IngestCountBounds | Implementation/PlayerController.hpp:66-68 | At most max(K, 1) ids are visited, and all of them when K covers the list. With K = 0 and a non-empty list, exactly the first id is visited. |
| Player.PlayerController.IngestFirstK | Implementation/PlayerController.hpp:66-68 | The new tree is exactly the old one with the catalogue songs of the first `IngestCount(n, K)` preload ids inserted and splayed one after another, in order, under the scores at the start. So the multiset gains exactly those songs, and a sorted tree stays sorted. |
| Player.PlayerController.IngestPrefix | Implementation/PlayerController.hpp:67 | The loop visits exactly the first `IngestCount(n, K)` ids, stopping once `K` ids are done, and leaves the tree as the fold of their insertions. The key and the catalogue stay as they were. |
| Player.PlayerController.IngestNext | Implementation/PlayerController.hpp:67 | One loop step ingests the next preload id, which extends the fold of insertions by that id's song, if it has one. |
| Player.RegisteredSnoc | Implementation/PlayerController.hpp:67 | Visiting one more id collects its catalogue song, if it has one, after the others. |
| Player.IngestStep | Implementation/PlayerController.hpp:61-67 | An id missing from the catalogue leaves the tree as it is. A known id's insertion, under a key that agrees on the songs involved, is the next step of the fold. The tree then holds only songs it held or the catalogue has. |

## Left out

- Logging: the feedback record, its wall-clock timestamp and the log file (Logger.hpp). They are an output sink with no effect on the state modelled here.
- Player.PlayerController.OnAction: the retraining runs a Python script via `std::system`. It is modelled only as a ghost count of retrains started. The `ml_engine()` hot reload after each action, and `init` at construction, are left out, because they read files.
- The user id and listened time passed to `onAction` are only logged, so they are not parameters of the model.
- Weight loading and cluster loading (FeatureWeightLoader, ClusterModel) read JSON files. The similarity engine is therefore a value: a loaded weight table, which may be empty, and the cluster affinity as a function of the user average. The Euclidean distance behind the affinity is not modelled.
- The global `ml_engine()` singleton is replaced by an engine passed to the controller's constructor.
- Songs.FinalScore: the logistic `1 / (1 + exp(-0.35 u))` is the parameter `squash: int -> real`. The key's properties assume it maps into [0,1], as the logistic does.
- The blend, similarity and moving-average claims are over real numbers, not IEEE doubles. `llround` is modelled as rounding half away from zero on reals.
- Similarity.ComputeSimilarity: the weight map is an `unordered_map`. The model iterates a sequence of (name, weight) entries in one fixed order; over reals the result does not depend on that order.
- Integer widths are unbounded. `user_score += delta`, the loader's count `n` and the interaction counter do not wrap at 32 or 64 bits.
- Registry.SongRegistry.LoadFromCsv:
  - the file is given as `Option<seq<string>>` of its lines, so a file that cannot be opened is `None`;
  - Windows line endings and the error message on a failed open are not modelled;
  - `std::stoi` and `std::stod` are the parameters `parseInt` and `parseReal`. `None` stands for an exception. Where the source's exception leaves the function, the model returns `Threw` and keeps the songs added before, as the source does.
- Unknown enum values: `to_cstr`'s "UNKNOWN" fallback and `delta`'s trailing `return 0` cannot be reached from a value of the enumeration, so only the eight named cases are modelled.
- Nodes in place: the nodes' `left`/`right` pointers are modelled as a value tree that `SongSplay` reassigns as a whole. Pointer aliasing between nodes is not modelled; a song's object identity is kept.
- Node ownership, and the fact that nodes are never freed, are not modelled.
- Ranking.SongSplay.Promote: the source recomputes each score at every comparison. The model takes one snapshot of all scores at the start of the operation; nothing changes during an operation, so the two agree. Sortedness is not claimed across operations, because the key changes between them.
- The catalogue does not own songs through `unique_ptr`; songs are shared objects.
- Profile.UserProfile.SoftReset: the default factor of 0.5 is not modelled. Callers always pass the factor, and the controller's only call passes 0.1.
