# Part-priority scoring, modelled in Dafny

This project models the part-priority scoring engine of the DataDojo
part-scoring repository, and the smaller pieces around it. The engine takes
a batch of electronic-component records: part number, inventory, lead time,
minimum order quantity, source type, datasheet and demand. For each record
it derives features, computes a weighted base score, forces unavailable
parts to zero, compounds business-rule boosts, normalises the result to a
0–100 priority score and ranks the records by it.

The repository has several overlapping copies of the engine, and the model
keeps each one separate:

- `EnhancedScorer` models `src/core/enhanced_scorer.py`.
- `PartScorer` models `core/scorer.py` and its packaged copy `part_priority_scoring/core/scorer.py`. The two differ only in their normaliser, selected by a `Variant` value.
- `ComponentScorer` models `scripts/scoring.py`.
- `CsvScorer` models `tests/csv_test/csv_test_scoring.py`.
- `Normalize` holds the four normalisers and their case analyses.

The feature engineers are `CoreFeatures` (`core/feature_engineer.py`) and
`ScriptFeatures` (`scripts/feature_engineering.py`). They share the per-value
formulas in `Features`. The batch validators are `Validators`
(`src/utils/validators.py`) and `SimpleValidator` (`utils/validator.py` and
its identical copy `part_priority_scoring/utils/validator.py`).

The lead-time parser and the JSON-field expansion are in `DataLoader`. The
left join on `pn` and the keep-first de-duplication on `pn_clean` are in
`Merge`, used by `EtlPipeline` (`scripts/etl_pipeline.py`) and by
`ProductionEtl` (`src/pipeline/production_etl.py`). `ProductionEtl` also
models the production validation gate and the score summary. `Settings`
models `part_priority_scoring/config/settings.py`.

## How the model is built

- A pandas DataFrame is a `Frames.Frame` value: a row count, the column names in order, and a map from name to column.
- A cell is `Missing` (NaN/None), `Num(x)` on exact reals, or `Text(s)`.
- Comparisons with a missing value or with text are false, as pandas gives for NaN.
- `df.copy()` followed by column writes becomes value semantics.
- Two places change the caller's frame in place: `merge_datasets` rewriting `demand_index`, and `_apply_tiered_filtering` adding `is_available`. Both go through the `Frames.FrameRef` class, whose `modifies` clause makes the mutation visible.
- Where the source runs a loop, the model has a method with a `while` loop, proved against a specification function. These loops are:
  - the loops over weights, boost rules, configured fields and issues;
  - the tier writes;
  - the coverage dictionary;
  - the normalisers' slice assignments.
- Functions and lemmas state the properties of those specification functions.

Some inputs are passed in as parameters and left uninterpreted:

- the numeric pieces the engine calls into: `np.log1p`, scikit-learn's `RobustScaler` (a function on columns, returning `None` when it raises), and `DataFrame.eval` in `scripts/scoring.py`;
- the JSON extractors.

The positive-subset `MinMaxScaler` of the normalisers is written out as its
formula. `round(2)` is written out exactly, as round-half-even to two
decimals (`RealMath.Round2`).

Some properties one might expect do not hold of the code, and the model
states what the code does:

- `sort_values` in pandas is not stable. The model proves "sorted by priority, descending" and "a permutation of the rows", and says nothing about the order of ties.
- An unavailable record has base and boosted score 0. Its priority score is not always 0. If every score is equal, all records get 50. In the packaged min-max normaliser, a 0 can be lifted above 0 when negative scores exist.
- Several test assertions contradict the code:
  - "1 Week" does not parse, because the pattern needs "Weeks".
  - `log_price` is never created by the scripts' engineer unless `price` itself is a column.
  - The scripts' availability score is clipped to 2.

## Model

| member | source | states |
|---|---|---|
| Frames.FillNa | scripts/feature_engineering.py:143 | `fillna(v)` keeps the length, replaces exactly the missing cells by `v` and keeps every other cell |
| Frames.FillNaIdempotent | scripts/feature_engineering.py:139-149 | filling a column twice with the same non-missing value is the same as filling it once, so the overlapping fills of `_handle_missing_values` are harmless |
| Frames.WithCol | scripts/scoring.py:59 | assigning a column keeps the row count and every other column; an existing name keeps its place in the column order |
| Frames.WithColAppends | scripts/scoring.py:59-61 | a column under a new name is appended at the end of the column order |
| Frames.SelectRows | scripts/etl_pipeline.py:43 | selecting rows keeps every column and the column order; row `k` of the result is row `idx[k]` of the input |
| Frames.FrameRef.constructor | scripts/etl_pipeline.py:25 | a handle on the caller's DataFrame holds that frame |
| Frames.FrameRef.SetColumn | scripts/etl_pipeline.py:29 | a column write on the shared frame changes the caller's frame to exactly the frame with that column written |
| RealMath.Clip | core/feature_engineer.py:101 | `clip(lo, hi)` lands in `[lo, hi]` and leaves values already inside unchanged |
| RealMath.SeqMax | src/pipeline/production_etl.py:197 | `max()` of a non-empty series is an element that bounds every element from above |
| RealMath.SeqMin | src/core/enhanced_scorer.py:275 | `min()` of a non-empty series is an element that bounds every element from below |
| RealMath.MaxIsMinIffAllEqual | src/core/enhanced_scorer.py:275-277 | the normalisers' test `max == min` holds exactly when all scores are equal |
| RealMath.ScaleIntoBounds | scripts/scoring.py:112-116 | the fitted `MinMaxScaler((a, b))` sends data in `[lo, hi]` into `[a, b]`, the minimum to `a`, the maximum to `b`, and everything to `a` when the data range is zero |
| RealMath.ScaleIntoMonotone | scripts/scoring.py:112-116 | the min-max scaler never reverses order, and keeps strict order when the data range and the target range are not empty |
| RealMath.RoundHalfEvenNear | src/core/enhanced_scorer.py:304 | rounding picks the floor or the ceiling, whichever is nearer |
| RealMath.RoundHalfEvenMonotone | src/core/enhanced_scorer.py:304 | rounding to an integer never reverses the order of two values |
| RealMath.Round2Monotone | src/core/enhanced_scorer.py:304 | `round(2)` never reverses the order of two values |
| RealMath.Round2OfInt | scripts/scoring.py:121 | `round(2)` keeps whole numbers, so the end points 1 and 100 survive rounding |
| RealMath.Round2Between | scripts/scoring.py:121 | `round(2)` keeps a value inside an interval with whole-number ends |
| Features.ClippedInverse | core/feature_engineer.py:67 | `1 / (1 + x.clip(lower=0))` lies in (0, 1] and is exactly 1 for `x <= 0` |
| Features.ClippedInverseAntitone | core/feature_engineer.py:67 | the clipped inverse never grows as `x` grows, and strictly shrinks for non-negative `x` |
| Features.PlainInverseRange | scripts/feature_engineering.py:68 | the unclipped `1 / (1 + x)` is a number in (0, 1] for `x >= 0` and strictly shrinks as `x` grows |
| Features.AvailabilityCell | core/feature_engineer.py:96-101 | the availability composite is a number exactly when all four inputs are numbers (NaN propagates otherwise), and then lies in [0, 2] |
| Features.AvailabilityNeedsClip | core/feature_engineer.py:99-101 | a record in stock, shipping immediately and with a ratio capped at 10 gets exactly 2, the upper bound of the final clip |
| Features.AvailabilityColumn | core/feature_engineer.py:97-99 | every row gets the composite of its own cells, with absent indicator columns read as the scalar 0 of `df.get` |
| Features.WithAvailabilityScore | core/feature_engineer.py:96-101 | `availability_score` is written exactly when `inventory` and `moq` are both columns; otherwise the frame is unchanged |
| Features.WithDemandScore | core/feature_engineer.py:104-105 | `demand_score` is `demand_all_time` with missing as 0 when that column exists; otherwise the frame is unchanged |
| Features.IndicatorColumn | core/feature_engineer.py:76-88 | every indicator cell is 1 exactly when its condition holds on the source cell, and 0 otherwise |
| Features.IndicatorNamesDisjoint | core/feature_engineer.py:75-88 | the four indicator names differ from each other and from every source column, so writing one never clobbers another's input |
| Features.AddIndicator | core/feature_engineer.py:75-88 | an indicator is written exactly when its source column exists, and no other column changes |
| Features.AddIndicatorKeeps | core/feature_engineer.py:75-88 | writing one indicator leaves every other indicator and its source as they were |
| Features.AddIndicatorSets | core/feature_engineer.py:75-88 | writing an indicator sets it from its source, which stays unchanged |
| Features.BinaryFrameFacts | core/feature_engineer.py:71-90 | after the four guarded writes of `BinaryFrame` each indicator reflects its source exactly when the source exists; every other column is kept |
| Features.AddBinaryFeatures | core/feature_engineer.py:71-90 | the four guarded writes compute `BinaryFrame`: each indicator reflects its source exactly when the source exists; every other column is kept |
| Features.DeriveColumns | core/feature_engineer.py:55-57 | the loop over configured fields computes exactly `DeriveAll` |
| Features.DerivedColumn | core/feature_engineer.py:57 | a derived cell is the transform of the source value with missing read as 0 |
| Features.DeriveAllKeys | core/feature_engineer.py:55-57 | the loop adds exactly the `prefix + field` columns of configured fields whose source is present |
| Features.DeriveAllKeeps | core/feature_engineer.py:55-57 | every column that is not a derived name keeps its values |
| Features.DeriveAllKeepsUnprefixed | core/feature_engineer.py:65-67 | a column without the prefix is neither created nor changed by the loop |
| Features.DeriveAllValues | core/feature_engineer.py:65-67 | the derived column of a field whose source is present holds the transform of that source, missing as 0 |
| Features.WithCols | core/feature_engineer.py:120 | `df[names] = values` gives column `names[k]` the values `values[k]` and keeps every other column |
| Features.PrefixedNames | core/feature_engineer.py:113-115 | the scaled columns are exactly the names starting with `log_`, `inv_`, `availability_` or `demand_`, without repetition |
| CoreFeatures.CreateLogFeatures | core/feature_engineer.py:51-59 | `log_f` is derived for each configured field (default inventory, first_price, moq) that is a column |
| CoreFeatures.CreateInverseFeatures | core/feature_engineer.py:61-69 | `inv_f` is derived for each configured field (default leadtime_weeks, first_price, moq) that is a column |
| CoreFeatures.InverseFeatureRange | core/feature_engineer.py:63-67 | every inverse feature lies in (0, 1] and is exactly 1 where the source is missing or not positive |
| CoreFeatures.InverseFeatureAntitone | core/feature_engineer.py:63-67 | an inverse feature never increases as its source value grows |
| CoreFeatures.LogFeaturesCreated | core/feature_engineer.py:53-57 | `log_f` exists exactly for configured fields that are columns, besides the columns already there |
| CoreFeatures.CreateCompositeFeatures | core/feature_engineer.py:92-107 | adds `availability_score` exactly when inventory and moq exist and `demand_score` exactly when demand exists, with their formulas; every other column is kept |
| CoreFeatures.PrefixedNamesInFrame | core/feature_engineer.py:113-115 | the scale list holds columns of the frame, without repetition, and no column lacking a scaling prefix |
| CoreFeatures.ScaleInput | core/feature_engineer.py:120 | the columns handed to the scaler hold no missing value |
| CoreFeatures.ScaledColumn | core/feature_engineer.py:117-127 | a scaled column, from the scaler or from the unscaled fallback when it raises, has no missing value |
| CoreFeatures.ScaledColumns | core/feature_engineer.py:117-127 | one scaled column per prefixed name, each of the frame's length |
| CoreFeatures.ScaledFrame | core/feature_engineer.py:109-130 | scaling keeps the row count, the column names and every column without a scaling prefix |
| CoreFeatures.ScaledFrameValues | core/feature_engineer.py:117-127 | every prefixed column of the scaled frame holds its scaled values, none missing |
| CoreFeatures.ScaleFeatures | core/feature_engineer.py:109-130 | `_scale_features` replaces exactly the prefixed columns with scaled values, none missing, and keeps every other column |
| CoreFeatures.Transform | core/feature_engineer.py:23-49 | `transform` keeps the row count, drops no column, sets each indicator from its source when that exists, keeps every column that is neither an indicator nor prefixed, creates `availability_score` when inventory and moq exist, and leaves no missing value in any prefixed (scaled) column |
| CoreFeatures.LogInverseKeepOthers | core/feature_engineer.py:51-69 | the log and inverse stages only add `log_` and `inv_` columns and change no other column |
| CoreFeatures.CompositeNamesPrefixed | core/feature_engineer.py:113-114 | `availability_score` and `demand_score` are among the scaled columns |
| CoreFeatures.SourceNamesPlain | core/feature_engineer.py:113-114 | `inventory` and `moq` are not scaled and are not indicators |
| CoreFeatures.IndicatorNotPrefixed | core/feature_engineer.py:113-114 | no indicator and no indicator source is scaled |
| ScriptFeatures.LogPriceNeedsPriceColumn | scripts/feature_engineering.py:45-50 | `log_price` is never made when `price` is not a column, even if `first_price` is |
| ScriptFeatures.LogPriceFromFirstPrice | scripts/feature_engineering.py:45-50 | with `price` and `first_price` both columns, `log_price` is `log1p` of `first_price`, missing as 0 |
| ScriptFeatures.InversePriceFromFirstPrice | scripts/feature_engineering.py:59-68 | `inv_price` reads `first_price` whenever that column exists, whether or not `price` does |
| ScriptFeatures.ScriptInverseRange | scripts/feature_engineering.py:59-69 | for non-negative or missing sources the unclipped inverse lies in (0, 1] and strictly shrinks as the source grows |
| ScriptFeatures.PresentNames | scripts/feature_engineering.py:126 | the filtered list holds exactly the listed names that are columns, without repetition |
| ScriptFeatures.ScaleListDistinct | scripts/feature_engineering.py:119-123 | the fixed scale list names eight different columns |
| ScriptFeatures.ScriptAvailabilityColumn | scripts/feature_engineering.py:97-105 | each row gets the clipped composite with the inventory ratio left uncapped |
| ScriptFeatures.WithScriptAvailability | scripts/feature_engineering.py:97-105 | `availability_score` is written exactly when in_stock, immediate_availability, inventory and moq all exist |
| ScriptFeatures.ScriptAvailabilityBounds | scripts/feature_engineering.py:97-105 | every availability score lies in [0, 2], or is missing exactly when an input is missing |
| ScriptFeatures.CreateCompositeFeatures | scripts/feature_engineering.py:93-113 | the two blocks compute `ScriptCompositeFrame`: the availability score exists afterwards exactly when it did before or all four inputs exist, and holds the clipped composite then; other columns than the two composites are kept |
| ScriptFeatures.FillColumns | scripts/feature_engineering.py:141-149 | the loop computes `FillListed`: each listed column that exists is filled with 0; every other column is kept |
| ScriptFeatures.FillTwiceIsFilled | scripts/feature_engineering.py:139-149 | filling the 0/1 list and then the prefixed names fills exactly the 0/1 and prefixed columns |
| ScriptFeatures.FilledFrameNoMissing | scripts/feature_engineering.py:139-149 | after the fill no 0/1 or prefixed column holds a missing value, the column names are kept, and every other column is unchanged |
| ScriptFeatures.BinaryCols | scripts/feature_engineering.py:140 | the binary list names exactly the four indicators |
| ScriptFeatures.HandleMissingValues | scripts/feature_engineering.py:136-152 | the two fill loops compute `FilledFrame`: every 0/1 and prefixed column is filled with 0, so none holds a missing value, and every other column is unchanged |
| ScriptFeatures.FeatureEngineer.constructor | scripts/feature_engineering.py:13-15 | a new engineer holds its configuration and no fitted scaler |
| ScriptFeatures.ScaledResultKeeps | scripts/feature_engineering.py:125-130 | scaling keeps the column names and order and changes no column outside the fixed list |
| ScriptFeatures.FeatureEngineer.ApplyScaling | scripts/feature_engineering.py:115-134 | computes `ScaledResult`: fails exactly when some listed column exists and the scaler raises; otherwise each present listed column becomes the scaler's output column for it, no other column changes, and the scaler is stored under "robust" exactly when something was scaled |
| ScriptFeatures.FeatureEngineer.Transform | scripts/feature_engineering.py:17-39 | the result is `TransformResult`, the six stages composed in source order; on success the row count is kept, every input column survives, no 0/1 or prefixed column holds a missing value, and the scaler fitted on the staged frame is recorded |
| ScriptFeatures.TransformFailure | scripts/feature_engineering.py:126-130 | `transform` fails exactly when the scaler raises on the scale-list columns present after the composite stage |
| ScriptFeatures.TransformKeepsFromBinary | scripts/feature_engineering.py:30-37 | composite, scaling and fill leave a column they do not write as the binary stage left it, filled with 0 when it is a 0/1 or prefixed column |
| ScriptFeatures.TransformKeepsFromInverse | scripts/feature_engineering.py:27-37 | the stages after the inverse stage keep a column that is not an indicator, a composite or in the scale list, filling it with 0 when it is prefixed |
| ScriptFeatures.TransformIndicators | scripts/feature_engineering.py:78-88 | in the result, each indicator whose source is an input column is exactly the 0/1 indicator of that source |
| ScriptFeatures.TransformDerivedKeys | scripts/feature_engineering.py:45-68 | a `log_` column exists in the result exactly when it was an input column or a listed field's source is present; an `inv_` column likewise, with `price` reading `first_price` |
| ScriptFeatures.TransformLogColumn | scripts/feature_engineering.py:45-50 | every listed log field with a present source has its `log_` column, which, outside the scale list, holds `log1p` of the source with missing as 0 |
| ScriptFeatures.TransformInverseColumn | scripts/feature_engineering.py:59-68 | every listed inverse field with a present source has its `inv_` column, which, outside the scale list, holds `1 / (1 + x)` of the source with missing as 0; at `x = -1`, where the source divides by zero, the model's cell is missing and the final fill makes it 0 |
| ScriptFeatures.TransformKeepsPlainColumns | scripts/feature_engineering.py:17-39 | an input column that is neither an indicator nor prefixed comes out unchanged |
| ScriptFeatures.GateColumnsKept | scripts/feature_engineering.py:41-71 | the log and inverse stages keep inventory, lead time and moq |
| ScriptFeatures.BinaryAvailabilityInputs | scripts/feature_engineering.py:84-97 | with inventory, lead time and moq present, the binary stage supplies all four inputs of the availability score |
| ScriptFeatures.TransformAvailabilityCreated | scripts/feature_engineering.py:97-105 | with inventory, lead time and moq in the input, the result has an `availability_score` column |
| Scoring.Present | core/scorer.py:86-87 | keeps only weight entries whose name is a column, and never more entries than the weights have |
| Scoring.WeightedBaseScore | core/scorer.py:82-99 | the loop accumulating `fillna(0) * weight` over present columns gives the weighted sum, then 0 where the gate mask holds |
| Scoring.WeightedSumIgnoresAbsent | core/scorer.py:86-92 | a weight whose name is not a column contributes nothing |
| Scoring.WeightedSumNoColumns | core/scorer.py:84-92 | with no weight name among the columns every base score is 0 |
| Scoring.WeightedSumNonneg | core/scorer.py:86-89 | non-negative weights over non-negative feature values give a non-negative base score |
| Scoring.CompoundBoosts | core/scorer.py:130-137 | the in-place `*=` loop gives the base score times the product of the multipliers of the rules firing on that row; a 0 base stays 0 |
| Scoring.BoostFactorRange | core/scorer.py:130-137 | with multipliers of at least 1 a row's factor lies between 1 and the product of all multipliers |
| Scoring.BoostsNeverLower | core/scorer.py:130-137 | a non-negative base score is never lowered by boosts of at least 1 |
| Scoring.FixedRules | core/scorer.py:106-127 | the four rules carry 1.1, 1.15, 1.05 and 1.08 in that order, and each has a mask exactly when a column its condition reads exists (otherwise the condition is a scalar and skipped) |
| Scoring.FixedBoostFactorRange | core/scorer.py:106-137 | with the four fixed rules a row's factor lies between 1 and 1.1·1.15·1.05·1.08 = 1.43451 |
| Ranking.Percentiles | src/core/enhanced_scorer.py:306-309 | one percentile per score: its average rank among the scores (ties share the mean of their positions) over the count, times 100; bounds and order are the next two rows |
| Ranking.PercentileBounds | src/core/enhanced_scorer.py:309 | every `rank(pct=True) * 100` percentile lies in (0, 100] |
| Ranking.PercentileOrder | src/core/enhanced_scorer.py:309 | equal scores share a percentile, and a strictly larger score gets a strictly larger percentile |
| Ranking.Insert | core/scorer.py:73 | inserting a row gives one more row and the same rows plus the new one |
| Ranking.SortDesc | core/scorer.py:73 | the descending sort returns a permutation of its rows |
| Ranking.InsertSorted | core/scorer.py:73 | inserting into a descending order keeps it descending |
| Ranking.SortDescSorted | core/scorer.py:73 | the sort's result is in non-increasing order of the key |
| Ranking.DescendingOrder | core/scorer.py:73 | the row order of `sort_values(ascending=False)` is a permutation of all rows, sorted by the key, highest first |
| Normalize.Positives | src/core/enhanced_scorer.py:288 | `scores[scores > 0]` holds exactly the positive scores |
| Normalize.PosMin | scripts/scoring.py:115-116 | the smallest positive score is positive, attained, and below every positive score |
| Normalize.PosMax | scripts/scoring.py:115-116 | the largest positive score is positive, attained, and above every positive score |
| Normalize.ScalePositiveBounds | scripts/scoring.py:112-118 | a positive score fitted into `[a, b]` lands there, the smallest positive at `a` and the largest at `b` when they differ |
| Normalize.ScalePositiveMonotone | scripts/scoring.py:112-118 | fitting the positive scores never reverses their order |
| Normalize.EnhancedNormalized | src/core/enhanced_scorer.py:269-304 | one normalised score per input score, branch by branch as `_normalize_final_scores`; its branches, extremes and order are the next three rows |
| Normalize.EnhancedNormalizedCases | src/core/enhanced_scorer.py:269-304 | empty stays empty, all equal gives 50, no positive gives 0; otherwise positives land in [1, 100] and non-positive scores keep their rounded value |
| Normalize.EnhancedNormalizedExtremes | src/core/enhanced_scorer.py:286-295 | the smallest positive score becomes 1 and the largest score becomes 100 when a smaller positive exists |
| Normalize.EnhancedNormalizedMonotone | src/core/enhanced_scorer.py:269-304 | the enhanced normaliser never reverses the order of two scores |
| Normalize.CoreNormalized | core/scorer.py:141-164 | one normalised score per input score, branch by branch as `_normalize_scores`; its branches, extremes and order are the next three rows |
| Normalize.CoreNormalizedCases | core/scorer.py:141-164 | empty or all equal gives 50, no positive gives 0; otherwise positives land in [1, 100] and non-positive scores keep their rounded value |
| Normalize.CoreNormalizedExtremes | core/scorer.py:152-158 | the smallest positive score becomes 1 and the largest becomes 100 when a smaller positive exists |
| Normalize.CoreNormalizedMonotone | core/scorer.py:141-164 | the core normaliser never reverses the order of two scores |
| Normalize.ScriptNormalized | scripts/scoring.py:103-121 | one normalised score per input score, branch by branch as the scripts' `_normalize_scores`; its branches and order are the next two rows |
| Normalize.ScriptNormalizedCases | scripts/scoring.py:103-121 | non-positive scores become exactly 0 and positives land in [1, 100], so every output is 0 or in [1, 100]; the smallest positive gives 1, and the largest score gives 100 when a smaller positive exists |
| Normalize.ScriptNormalizedMonotone | scripts/scoring.py:103-121 | the scripts' normaliser never reverses the order of two scores |
| Normalize.MinMaxNormalized | part_priority_scoring/core/scorer.py:117-137 | one normalised score per input score, branch by branch as the packaged `_normalize_scores`; its branches and order are the next two rows |
| Normalize.MinMaxNormalizedCases | part_priority_scoring/core/scorer.py:117-137 | empty stays empty, all equal gives 50; otherwise every output lies in [0, 100], the minimum gives 0 and the maximum 100 |
| Normalize.MinMaxNormalizedMonotone | part_priority_scoring/core/scorer.py:117-137 | plain min-max normalisation never reverses the order of two scores |
| PartScorer.CalculateBaseScore | core/scorer.py:82-99 | the weighted sum of each record, zeroed for unavailable records only when both gate columns exist |
| PartScorer.ApplyBoosts | core/scorer.py:101-139 | each record's base score times the product of the fixed multipliers firing on it; a 0 base stays 0 |
| PartScorer.NormalizeScores | core/scorer.py:141-164 | the branch-by-branch normaliser computes the variant's normalisation: the core copy's positive-subset scaling, or the packaged copy's plain min-max |
| PartScorer.BaseScores | core/scorer.py:82-99 | the base score of every engineered record: the gated weighted sum |
| PartScorer.BoostedScores | core/scorer.py:101-139 | the boosted score of every record is its base score times its fixed-rule factor |
| PartScorer.ScoredFrame | core/scorer.py:56-69 | the engineered frame plus the four score columns, every other column kept |
| PartScorer.RankedFrame | core/scorer.py:73 | row `k` of the result carries the priority score of the `k`-th row in descending order |
| PartScorer.EmptyScored | core/scorer.py:40-46 | an empty input comes back empty, with `priority_score`, `score_percentile` and `base_score` added |
| PartScorer.ScoreEngineered | core/scorer.py:56-73 | the scoring steps and the sort on the engineered frame give `RankedFrame` |
| PartScorer.CalculateScores | core/scorer.py:30-73 | an empty frame gets the empty score columns; otherwise the result is the ranked frame of the engineered records, which keep the row count and every input column |
| PartScorer.RankedIsPermutation | core/scorer.py:73 | the result is a reordering of the scored rows: the row order is a permutation, and every column follows it |
| PartScorer.RankedIsSorted | core/scorer.py:73 | the rows come out in non-increasing order of priority score |
| PartScorer.UnnormalizedPriorityIsBoosted | core/scorer.py:63-66 | with `normalize=False` the priority score is the boosted score |
| PartScorer.PriorityRange | part_priority_scoring/core/scorer.py:117-137 | the packaged copy keeps every priority in [0, 100]; when the boosted scores are not all equal, the core copy sends positive ones into [1, 100] and keeps non-positive ones at or below 0 |
| PartScorer.PriorityMonotone | core/scorer.py:141-164 | in both copies a larger boosted score never gets a smaller priority score |
| PartScorer.UnavailableScoresZero | core/scorer.py:94-97 | an unavailable record, with both gate columns present, has base and boosted score 0 |
| PartScorer.BoostedWithinFixedRange | core/scorer.py:101-139 | boosting lifts a non-negative base score by a factor between 1 and 1.43451 |
| ComponentScorer.ApplyTieredFiltering | scripts/scoring.py:55-64 | the caller's frame gets `is_available`: false exactly for no stock and more than 12 weeks, true everywhere when a gate column is absent |
| ComponentScorer.FilteredGate | scripts/scoring.py:58-61 | after the filter a record's base score is zeroed exactly when both gate columns exist and it is unavailable |
| ComponentScorer.CalculateBaseScore | scripts/scoring.py:66-80 | the weighted sum over present columns, set to 0 wherever `is_available` is false |
| ComponentScorer.EvaluatedRules | scripts/scoring.py:87-93 | each configured rule gets the mask `DataFrame.eval` gives for its condition, and keeps its multiplier |
| ComponentScorer.ApplyBoosts | scripts/scoring.py:82-101 | starting from the frame's `base_score` column, each record's base score times the product of the multipliers of the rules whose mask, evaluated on that same frame, holds there; a 0 base stays 0 |
| ComponentScorer.FailingRuleSkipped | scripts/scoring.py:92-99 | a rule whose evaluation raises changes nothing: removing it leaves every factor as it was, so the other rules still apply |
| ComponentScorer.NormalizeScores | scripts/scoring.py:103-121 | the slice assignments compute the scripts' normalisation: 0 without a positive score, else positives into [1, 100] and the rest 0 |
| ComponentScorer.BaseScores | scripts/scoring.py:66-80 | the base score of every record of the flagged frame: the gated weighted sum |
| ComponentScorer.WithBase | scripts/scoring.py:41-44 | the frame the boosts see: the flagged input with `base_score` written, every other input column kept |
| ComponentScorer.BoostedScores | scripts/scoring.py:44-47 | each record's base score times the factor of the rules evaluated on the frame that already holds `base_score` |
| ComponentScorer.ScoredFrame | scripts/scoring.py:36-53 | the flagged input with the three score columns added, rows in input order, other columns kept; `base_score` is the gated sum, `boosted_score` comes from rules evaluated on the frame holding that base score, and `priority_score` is its normalisation |
| ComponentScorer.CalculateScores | scripts/scoring.py:36-53 | `calculate_scores` filters a copy, writes the base score, evaluates the boosts on that frame, normalises, and does not re-sort: the result is `ScoredFrame` |
| ComponentScorer.PriorityFacts | scripts/scoring.py:103-121 | every priority is 0 or in [1, 100]; an unavailable record gets base and priority exactly 0; a larger boosted score never gets a smaller priority |
| EnhancedScorer.TierOrder | src/core/enhanced_scorer.py:92-107 | the tier lies in 1..4 and grows with the lead time; out of stock it is 4, and in stock with at most 12 weeks it is below 4 |
| EnhancedScorer.AssignTiers | src/core/enhanced_scorer.py:92-107 | the four masked writes give every record exactly the tier of its inventory and lead time |
| EnhancedScorer.TierColumn | src/core/enhanced_scorer.py:92-107 | every row's tier is computed from its own inventory and lead-time cells |
| EnhancedScorer.AvailabilityFilterAsWrittenFails | src/core/enhanced_scorer.py:86-95 | as written, the filter raises exactly when a gate column is absent, for instance on a frame holding only `pn` |
| EnhancedScorer.ApplyAvailabilityFilter | src/core/enhanced_scorer.py:81-109 | the intended filter computes `FilteredFrame` |
| EnhancedScorer.FilteredFrameFacts | src/core/enhanced_scorer.py:86-107 | `is_available` is 0 exactly for unavailable records, 1 everywhere without both gate columns, and every record gets one tier from 1 to 4 |
| EnhancedScorer.FilteredFrameKeeps | src/core/enhanced_scorer.py:81-109 | every column other than the two written ones is unchanged |
| EnhancedScorer.EconomicColumn | src/core/enhanced_scorer.py:189-192 | `economic_score` is `0.6·inv_price + 0.4·inv_moq` when both columns exist (missing when an input is), and 0 otherwise |
| EnhancedScorer.EconomicBounds | src/core/enhanced_scorer.py:189-192 | where `inv_price` and `inv_moq` hold numbers in (0, 1], as they do before scaling, every economic score is a number in (0, 1]; without both columns it is 0 in every row |
| EnhancedScorer.DemandColumn | src/core/enhanced_scorer.py:183-186 | `demand_score` is never missing: the demand filled with 0, or 0 without the column |
| EnhancedScorer.CreateCompositeFeatures | src/core/enhanced_scorer.py:167-194 | the column writes of `_create_composite_features` compute `CompositeFrame` |
| EnhancedScorer.CompositeAvailability | src/core/enhanced_scorer.py:171-177 | `availability_score` exists exactly when it did or inventory and moq exist, with the clipped formula |
| EnhancedScorer.CompositeDemand | src/core/enhanced_scorer.py:183-186 | `demand_score` and `economic_score` always exist; demand is never missing and is the filled demand column when that exists |
| EnhancedScorer.CompositeKeeps | src/core/enhanced_scorer.py:167-194 | every input column survives, and only the three composite columns may change |
| EnhancedScorer.CalculateWeightedScore | src/core/enhanced_scorer.py:196-216 | the weighted sum over present weight columns, missing as 0, set to 0 wherever `is_available` is false |
| EnhancedScorer.FilteredGate | src/core/enhanced_scorer.py:212-214 | after the filter a record is zeroed exactly when both gate columns exist and it is unavailable |
| EnhancedScorer.KnownConditions | src/core/enhanced_scorer.py:252-259 | the default texts `inventory >= 10 * moq`, `leadtime_weeks == 0` and `has_datasheet == 1` each select their own condition form |
| EnhancedScorer.EvalCondition | src/core/enhanced_scorer.py:248-267 | a recognised condition yields a mask of one entry per record; an unknown one yields none |
| EnhancedScorer.BoostRules | src/core/enhanced_scorer.py:223-229 | each configured rule carries the mask `_safe_eval_condition` gives for its text, and its multiplier |
| EnhancedScorer.SkippedConditionNeverFires | src/core/enhanced_scorer.py:258-267 | an unknown condition, or the datasheet condition without its column, never fires |
| EnhancedScorer.ApplyBusinessBoosts | src/core/enhanced_scorer.py:218-246 | in configuration order, each record's base score times the product of the multipliers firing on it; a 0 base stays 0 |
| EnhancedScorer.NormalizeFinalScores | src/core/enhanced_scorer.py:269-304 | the edge cases and the masked writes compute the enhanced normalisation |
| EnhancedScorer.BaseScores | src/core/enhanced_scorer.py:196-216 | the base score of every record: the gated weighted sum |
| EnhancedScorer.BoostedScores | src/core/enhanced_scorer.py:218-246 | each record's base score times its configured-rule factor |
| EnhancedScorer.ScoredFrame | src/core/enhanced_scorer.py:52-62 | the engineered frame with the four score columns written, every other column kept |
| EnhancedScorer.ScoreEngineered | src/core/enhanced_scorer.py:52-62 | steps 3 to 6 of `calculate_scores` compute `ScoredFrame` |
| EnhancedScorer.ScoredFrameFacts | src/core/enhanced_scorer.py:306-309 | the priority score is the enhanced normalisation of the boosted score, and each percentile lies in (0, 100] and follows the priority order |
| EnhancedScorer.UnavailableScoresZero | src/core/enhanced_scorer.py:212-214 | every record the filter marks unavailable has base and boosted score exactly 0, whatever the weights and rules |
| CsvScorer.FirstMissing | tests/csv_test/csv_test_scoring.py:86-106 | no required column is missing exactly when inventory, lead time, moq, demand, source type and datasheet all exist |
| CsvScorer.FilledValues | tests/csv_test/csv_test_scoring.py:86-90 | missing inventory, lead time and demand become 0, missing moq becomes 1, source type and datasheet are untouched |
| CsvScorer.CsvAvailability | tests/csv_test/csv_test_scoring.py:110-113 | each row's availability is the clipped composite of its filled inputs |
| CsvScorer.FeatureColumns | tests/csv_test/csv_test_scoring.py:97-113 | `inv_leadtime_weeks`, `inv_moq`, `immediate_availability` and `availability_score` are computed from the filled columns |
| CsvScorer.EngineeredKeeps | tests/csv_test/csv_test_scoring.py:86-90 | the required columns stay, and inventory, lead time and moq hold their filled values |
| CsvScorer.ScaleStep | tests/csv_test/csv_test_scoring.py:118-126 | scaling fails exactly when the scaler does, and otherwise writes the scaled columns |
| CsvScorer.ScoreResult | tests/csv_test/csv_test_scoring.py:48-79 | an empty input comes back unchanged; a non-empty one lacking a required column fails naming the first one read |
| CsvScorer.ScoreParts | tests/csv_test/csv_test_scoring.py:48-79 | `score_parts` computes `ScoreResult` |
| CsvScorer.LeadtimeNotScaled | tests/csv_test/csv_test_scoring.py:119-121 | `leadtime_weeks`, `inventory`, `moq` and `source_type` are not scaled |
| CsvScorer.InverseFeatureFacts | tests/csv_test/csv_test_scoring.py:97-106 | `inv_leadtime_weeks` and `inv_moq` lie in (0, 1] and never grow as their numeric lead time or moq grows; a missing lead time gives inverse 1 and sets `immediate_availability` |
| CsvScorer.AvailabilityFacts | tests/csv_test/csv_test_scoring.py:110-113 | the availability score lies in [0, 2] on every record whose inventory and moq are not text |
| CsvScorer.ScaledLeadtime | tests/csv_test/csv_test_scoring.py:118-126 | the scaled frame keeps the filled lead time |
| CsvScorer.MissingLeadtimeEarnsImmediateShip | tests/csv_test/csv_test_scoring.py:158-161 | a record with a missing lead time earns the immediate-ship boost |
| CsvScorer.CsvGateAndRulesAlwaysApply | tests/csv_test/csv_test_scoring.py:142-173 | on the engineered frame both gate columns exist and all four rules have masks, so the conditional gate and rules of the packaged scorer apply unconditionally |
| CsvScorer.RequiredRulesApply | tests/csv_test/csv_test_scoring.py:148-173 | on any frame with the required columns the gate applies and every fixed rule has a mask |
| CsvScorer.MissingColumnFails | tests/csv_test/csv_test_scoring.py:86-106 | a non-empty frame fails with a missing column exactly when it lacks a required column, and the named column is indeed absent |
| CsvScorer.ResultSorted | tests/csv_test/csv_test_scoring.py:75 | a successful result keeps the row count and is sorted by priority score, highest first |
| Validators.MissingFrom | src/utils/validators.py:80 | the missing list holds exactly the required names that are not columns |
| Validators.ValidateStructure | src/utils/validators.py:65-89 | `_validate_structure` computes the structure issues |
| Validators.StructureIssuesFacts | src/utils/validators.py:69-87 | an empty batch gives a critical issue with 0 affected rows; a missing `pn` or `inventory` gives one critical issue affecting every row; nothing else, and all of it is critical |
| Validators.CalculateFieldCoverage | src/utils/validators.py:91-105 | the loop over columns fills one coverage entry per column |
| Validators.CoverageBounds | src/utils/validators.py:100 | on a non-empty batch coverage is a percentage in [0, 100], and 100 exactly when the column has no null |
| Validators.ValidateFieldCoverage | src/utils/validators.py:107-124 | the loop over requirements computes the coverage issues |
| Validators.CoverageWarningIff | src/utils/validators.py:111-122 | a coverage warning names a field exactly when it is required, present, and covered strictly below the requirement; every coverage issue is a warning |
| Validators.ValidateDataQuality | src/utils/validators.py:126-159 | the loop over the four range checks computes the range issues |
| Validators.OutOfRangeValuesFacts | src/utils/validators.py:144-147 | the list holds exactly the non-null values strictly outside [min, max]; both bounds count as in range |
| Validators.RangeIssueFacts | src/utils/validators.py:149-157 | a range warning is raised exactly when some value is out of range, counts all of them, and gives at most five examples from the front |
| Validators.RangeIssuesAreWarnings | src/utils/validators.py:153 | every range issue is a warning |
| Validators.ValidateBusinessRules | src/utils/validators.py:161-187 | `_validate_business_rules` computes the business issues |
| Validators.BusinessIssuesFacts | src/utils/validators.py:165-185 | the info issue appears exactly when both gate columns exist and some record is unavailable; the price warning exactly when some in-stock record lacks a price; neither is critical |
| Validators.IssuePenaltyCounts | src/utils/validators.py:200-207 | the loop deducts 25 per critical issue, 10 per warning and 2 per info issue |
| Validators.CoveragePenalty | src/utils/validators.py:210-211 | the coverage penalty is never negative and agrees with the source's formula whenever there is a column |
| Validators.QualityScoreAsWrittenFails | src/utils/validators.py:210 | as written, a batch with no columns makes the quality score raise |
| Validators.CalculateQualityScore | src/utils/validators.py:189-214 | the score lies in [0, 100], is the clamp of 100 minus the issue penalties and the coverage penalty, and agrees with the source whenever there is a column |
| Validators.CountSeverityZero | src/utils/validators.py:48-54 | no issue of a severity is counted exactly when none has it, so `is_valid` means no critical issue |
| Validators.ValidateBatch | src/utils/validators.py:27-63 | `validate_batch` runs the four checks in order and computes the metrics |
| Validators.ValidationFacts | src/utils/validators.py:47-60 | `is_valid` holds iff no issue is critical, iff the batch has rows and both `pn` and `inventory`; `valid_rows` is every row with both columns and 0 without; the quality score is in [0, 100] |
| SimpleValidator.SimpleIssues | utils/validator.py:29-47 | an empty batch and a missing `pn` each add exactly one critical issue, and nothing else is added |
| SimpleValidator.ValidateBatch | utils/validator.py:25-61 | `is_valid` iff the batch has rows and `pn`; `valid_rows` is the row count when valid and 0 otherwise; the quality score is 100 − 25 per issue, so one of 50, 75 and 100 |
| SimpleValidator.AllCritical | utils/validator.py:50-51 | when every issue is critical the critical count is the number of issues |
| DataLoader.FirstMatch | scripts/data_loader.py:102 | `re.search` finds the leftmost position where the pattern matches, or reports that it matches nowhere |
| DataLoader.LeftmostMatchStartsRun | scripts/data_loader.py:102-103 | the leftmost match begins at the start of a digit run, so group 1 is the whole run |
| DataLoader.ParseWeeks | scripts/data_loader.py:100-103 | gives a value only when the pattern matches at some position, and nothing when it matches nowhere |
| DataLoader.ExtractLeadtimeWeeks | scripts/data_loader.py:96-103 | a missing or numeric cell gives nothing; a text cell gives a value exactly when the pattern matches in it |
| DataLoader.ParseWeeksSpec | scripts/data_loader.py:102-103 | the parse succeeds exactly when the pattern matches somewhere, and then gives the value of the first match's digits |
| DataLoader.ExtractLeadtimeWeeksSpec | scripts/data_loader.py:96-103 | a missing or numeric lead time gives `None`; a text gives a number exactly when the pattern matches in it |
| DataLoader.DigitsValueOfNatToString | scripts/data_loader.py:103 | `int(str(n))` is `n` |
| DataLoader.ParseWeeksRoundTrip | scripts/data_loader.py:102-103 | every natural number written out and followed by " Weeks" parses back to itself |
| DataLoader.ParseWeeksSixteen | scripts/data_loader.py:102-103 | "16 Weeks, 0 Days" gives 16 |
| DataLoader.ParseWeeksUpperCase | scripts/data_loader.py:102 | the letter case of "Weeks" does not matter: "3 WEEKS" gives 3 |
| DataLoader.ParseWeeksNoDigits | scripts/data_loader.py:103 | "Available Now" gives `None` |
| DataLoader.ParseWeeksSingular | scripts/data_loader.py:102 | "1 Week" gives `None`: the pattern needs the final `s` |
| DataLoader.ApplyCells | scripts/data_loader.py:74 | `apply` maps every cell through the function and keeps the length |
| DataLoader.ParsedColumn | scripts/data_loader.py:69-78 | a target column is written from its source exactly when the source exists; every other column is kept |
| DataLoader.ParseJsonFields | scripts/data_loader.py:64-80 | `first_price`, `leadtime_weeks` and `order_count` are added exactly when `pricing`, `leadtime` and `ordered` exist, computed cell by cell; every other column is kept |
| Merge.Matches | scripts/etl_pipeline.py:32-36 | the matches of a key are exactly the right rows holding it, in increasing order |
| Merge.RowsFor | scripts/etl_pipeline.py:32-36 | a left row yields one output row per match, or a single unmatched row |
| Merge.JoinRows | scripts/etl_pipeline.py:32-36 | every output row comes from a left row in left order; a matched row has an equal key, and an unmatched row has no right row with its key |
| Merge.JoinKeepsEveryLeftRow | scripts/etl_pipeline.py:32-36 | every part row survives the left join |
| Merge.UniqueKeysMatchOnce | scripts/etl_pipeline.py:32-36 | with unique demand keys every part row has at most one match |
| Merge.UniqueKeysKeepLength | scripts/etl_pipeline.py:32-36 | with unique demand keys the join has one row per part row, in the part order |
| Merge.LeftColumn | scripts/etl_pipeline.py:32-36 | each join row carries the part column's value of its left row |
| Merge.RightColumn | scripts/etl_pipeline.py:32-36 | each join row carries the demand value of its matched row, or missing when unmatched |
| Merge.MergeResult | scripts/etl_pipeline.py:32-36 | a successful merge is a well-formed frame with the part columns (suffixed on collision) followed by the two demand columns |
| Merge.MergedRows | scripts/etl_pipeline.py:32-36 | the merged frame has one row per join row |
| Merge.MergedLeftColumn | scripts/etl_pipeline.py:32-36 | a part column that collides with no demand column keeps its name and carries the values of the left rows |
| Merge.MergedDemandColumn | scripts/etl_pipeline.py:32-36 | a demand column the part frame lacks keeps its name and reads the matched demand row, or missing |
| Merge.MergeFailures | scripts/etl_pipeline.py:33-34 | the model's merge fails exactly on a missing indexed column, a missing part key or a repeated merged name (a frame here cannot hold one), and names never repeat without a demand column among the part columns |
| Merge.FirstOccurrences | scripts/etl_pipeline.py:43 | the kept rows are exactly the first occurrences of their keys, in increasing order |
| Merge.FirstOccurrencesUnique | scripts/etl_pipeline.py:43 | the kept keys are pairwise different, and no more rows are kept than there were |
| Merge.KeyKept | scripts/etl_pipeline.py:43 | the key of every row is the key of some kept row |
| Merge.FirstIndex | scripts/etl_pipeline.py:43 | every row's key first occurs at or before it |
| Merge.DeduplicatedFacts | scripts/etl_pipeline.py:41-43 | afterwards `pn_clean` values are pairwise different, every input value still occurs, and each kept row is the first row with its value, in the original relative order |
| EtlPipeline.WithDemandIndex | scripts/etl_pipeline.py:28-29 | `demand_index` is recomputed from `demand_totals` exactly when that column exists; every other column is kept |
| EtlPipeline.Merged | scripts/etl_pipeline.py:32-46 | the pipeline's merge succeeds exactly when the join does, with the merged names and no more rows than the join |
| EtlPipeline.MergeDatasets | scripts/etl_pipeline.py:25-46 | the caller's demand frame is rewritten in place, and the result is the merged, de-duplicated frame of the rewritten demand |
| EtlPipeline.MergedKeepsParts | scripts/etl_pipeline.py:32-36 | with unique demand `pn` and no `pn_clean`, the result has exactly the part rows in order, each part column unchanged |
| EtlPipeline.NoPnClean | scripts/etl_pipeline.py:41 | without `pn_clean` among the part columns the merged frame has none, so no de-duplication happens |
| EtlPipeline.DemandIndexFromTotals | scripts/etl_pipeline.py:28-36 | a matched part row's `demand_index` is extracted from its demand row's totals, and an unmatched row's is missing |
| ProductionEtl.MergeDatasets | src/pipeline/production_etl.py:157-180 | fails exactly when the join does or a demand name already is a part column; otherwise the result is the left join with both demand columns zero-filled, de-duplicated on `pn_clean` keeping the first row (`Merge.DeduplicatedFacts`), so neither demand column has a missing value and `pn_clean` is unique when present |
| ProductionEtl.FilledMergeValues | src/pipeline/production_etl.py:160-171 | before de-duplication row `t` is join row `t`: part columns carry the left row's values, demand columns the matched demand value with missing as 0, and an unmatched part row gets demand 0 |
| ProductionEtl.ZeroFilled | src/pipeline/production_etl.py:169-170 | after `fillna(0)` the column has no missing cell and the others are unchanged |
| ProductionEtl.DeduplicatedKeepsFilled | src/pipeline/production_etl.py:173-178 | de-duplication keeps the filled demand columns free of missing values |
| ProductionEtl.DemandNamesPresent | src/pipeline/production_etl.py:162-166 | after the join a plain demand name exists exactly when the part frame did not have it |
| ProductionEtl.SampleGate | src/pipeline/production_etl.py:78-79 | the gate raises exactly when validation failed and the environment is production, reporting the issues |
| ProductionEtl.SampleChecks | src/pipeline/production_etl.py:65-79 | a validation error is raised only in production; in production only a non-empty merged frame with `pn` and `inventory` gets through; any other failure is the merge's |
| ProductionEtl.Mean | src/pipeline/production_etl.py:195 | `mean()` exists exactly when there is a number, and lies between the smallest and largest |
| ProductionEtl.Median | src/pipeline/production_etl.py:196 | `median()` exists exactly when there is a number, and lies between the smallest and largest |
| ProductionEtl.Top | src/pipeline/production_etl.py:197 | `max()` exists exactly when there is a number, and is the largest score |
| ProductionEtl.CountIfSplit | src/pipeline/production_etl.py:199-201 | the count of two disjoint conditions together is the sum of their counts |
| ProductionEtl.PipelineSummary | src/pipeline/production_etl.py:182-206 | raises exactly when a non-empty frame lacks `priority_score`; a summary, when there is one, counts the frame's rows as its total |
| ProductionEtl.SummaryBuckets | src/pipeline/production_etl.py:193-203 | the total is the row count; high, medium and low add up to the scored count, and with the zero bucket they do not exceed the total |
| ProductionEtl.SummaryEmptyIff | src/pipeline/production_etl.py:190 | the execution summary is empty exactly without a frame or on an empty frame |
| ProductionEtl.SummaryStatistics | src/pipeline/production_etl.py:195-197 | average, median and top exist exactly when there is a numeric score; they lie between the smallest and largest, and top is the largest |
| Settings.OrDefault | part_priority_scoring/config/settings.py:13-23 | a file that loads gives its document; a missing or unparsable one gives the default |
| Settings.Get | part_priority_scoring/config/settings.py:27 | `.get` returns the value of the last entry with the key, or the default when no entry has it |
| Settings.DefaultConfig | part_priority_scoring/config/settings.py:7-30 | fails exactly when the weights document is not a mapping; otherwise holds the feature document, no project id and the fixed dataset name |
| Settings.WeightSelection | part_priority_scoring/config/settings.py:27 | the weights are the `base_weights` entry when present, and the whole document otherwise |
| Settings.FallbackToDefaults | part_priority_scoring/config/settings.py:13-23 | without readable files the configuration is the built-in one, with the flat default weights |
| Settings.EmptyWeightsFileFails | part_priority_scoring/config/settings.py:27 | an empty weights file loads as null, on which `.get` raises |
| Settings.DefaultWeightNames | part_priority_scoring/config/settings.py:43-51 | no default weight name is "base_weights" or contains the letter `p` |
| Settings.DefaultWeightsFacts | part_priority_scoring/config/settings.py:43-51 | the default weights sum to exactly 1, are all positive, and no name contains "price" |
| Settings.DefaultFeaturesHaveNoPrice | part_priority_scoring/config/settings.py:35-36 | no field of the default log or inverse transform lists contains "price" |

## Left out

- Remote I/O is not part of this model: BigQuery loading, table saves, retries with sleeps and SQL text. Neither are logging, the metric counters or the wall-clock timings (`_update_metrics`, `get_metrics_summary`, the `scored_at` and `batch_id` columns). None of them affects a score.
- Orchestration is not modelled: `run_full_pipeline`, the async batch loop, `main`, `save_results` and the subprocess runner. It only sequences the modelled steps.
- `np.log1p`, the robust scaler's statistics and `DataFrame.eval` are uninterpreted parameters. They are numeric or dynamic library code, and the model states what holds for every choice of them.
- Floating point is not modelled: values are exact reals. Infinity from `1 / (1 + x)` at `x = -1` is read as a missing cell.
- ScriptFeatures.TransformInverseColumn: the scripts' `1 / (1 + x)` (scripts/feature_engineering.py:68) gives infinity at `x = -1`, and the unclipped `np.log1p` (line 50) gives minus infinity at -1 and NaN below it. `fillna(0)` (lines 146-149) replaces NaN but not infinity, so an `inv_` or `log_` column outside the scale list keeps the infinity where the model's `Features.PlainInverse` gives a missing cell that the fill turns into 0. For `inv_leadtime_weeks`, `inv_price` and `inv_moq`, which are in the scale list, the `RobustScaler` call (lines 128-130, not guarded) raises on infinity, where the model's scaler sees a missing cell and may succeed. `np.log1p` is a parameter here, so its values below -1 are whatever that parameter gives.
- The JSON extractors `extract_first_price`, `extract_order_count` and `extract_demand_index` are parameters, because JSON decoding is library code.
- The YAML parser is not modelled. A file read is given as its outcome: not found, malformed, or a loaded document.
- `config/settings.py` is not part of this model: its live code only loads YAML.
- The exception-only fallback formulas of the two positive-subset normalisers are not modelled. The primary scaler path cannot raise on the inputs it receives.
- The `dtype` names recorded by the field coverage are not modelled. Neither is the order of the names inside a pandas `KeyError` message.
- Merge.MergeResult: merging a numeric `pn` column with a text `pn` column makes pandas raise `ValueError`; the model compares cells by value, so such rows simply find no match. A suffixed name that repeats a name from the other side (part columns `pn`, `demand_all_time` and `demand_all_time_y` give `demand_all_time_x` and `demand_all_time_y` on the left, next to the demand side's `demand_all_time_y`) is accepted by pandas 2, which returns a frame with the label twice; a `Frame` cannot hold a repeated name, so the model fails with `DuplicateColumns` there.
- Merge.MergeFailures: states when the model's merge fails; a repeated name across the two sides fails here but not in pandas 2, as the Merge.MergeResult line says.
- Settings.FallbackToDefaults: a configuration file that exists but cannot be opened or decoded makes `settings.py` raise `PermissionError` or `UnicodeDecodeError`, which the model does not represent. YAML booleans and non-string mapping keys have no `Yaml` form either.
- Text cells in numeric columns are not modelled as errors. Comparing text with a number is modelled as false, where pandas may raise `TypeError`. In arithmetic (`fillna(0) * weight`, `np.log1p`, `1 / (1 + x)`, `inventory / moq`, `0.6 * inv_price + 0.4 * inv_moq`) pandas raises `TypeError` on a text cell; the model reads such a cell as 0 (`Frames.FillZero`, used by `Scoring.Contribution` and `Features.DerivedColumn`) or gives a missing cell (`Features.AvailabilityCell`, `EnhancedScorer.EconomicColumn`), as the lines below say member by member.
- AvailabilityCell: a text inventory, moq or indicator gives a missing cell, where pandas raises `TypeError` on `inventory / moq` or the weighted sum.
- WeightedBaseScore: a text cell in a weighted column contributes 0, where `fillna(0) * weight` raises `TypeError`.
- EconomicColumn: a text `inv_price` or `inv_moq` gives a missing cell, where `0.6 * inv_price + 0.4 * inv_moq` raises `TypeError`.
- DerivedColumn: a text source cell is read as 0, where `np.log1p` and `1 / (1 + x)` raise `TypeError` on a text column.
- `\s` is modelled on the characters up to U+00A0, and `\d` on ASCII digits. Other Unicode spaces and digits are not modelled.
- Sort stability is left out: tied priority scores may come out in any order, since `sort_values` does not promise one.
- The summary's `pipeline_metrics` and `scorer_metrics` entries are left out. They are counters and timings.
- EnhancedScorer.ScoreEngineered: starts from the engineered frame. The enhanced scorer's own `_engineer_features` (src/core/enhanced_scorer.py:111-165) is not modelled as a whole. Its composite stage is `EnhancedScorer.CreateCompositeFeatures`. Its log, inverse, binary and scaling steps (lines 115-164) are not modelled, and they differ from `CoreFeatures`: the log and inverse loops write `log_f` and `inv_f` whenever the source column exists, with `price` reading `first_price`; only the binary features named in the configuration are written, and one whose source column is missing is written as 0.
- ProductionEtl.SampleChecks: states the gate's consequences instead of the full validation result. The exact issues are stated by `Validators.ValidationFacts`.
- PartScorer.CalculateScores: names the engineered frame only as a ghost out-parameter. Its contract states what holds of that frame (row count and input columns kept) and that the result is its ranked frame. It does not re-derive the frame from `CoreFeatures.Transform`, which is a method.

## Findings

| source | as written | input that shows it | evidently intended | confidence | as-written member | corrected member |
|---|---|---|---|---|---|---|
| src/core/enhanced_scorer.py:86-95 | the tier masks index `df['inventory']` and `df['leadtime_weeks']` unconditionally, so the all-available branch of lines 88-89 is always followed by a `KeyError` | a frame with only a `pn` column | without the gate columns every record is available and gets a tier | not executed | EnhancedScorer.AvailabilityFilterAsWrittenFails | EnhancedScorer.FilteredFrameFacts |
| src/utils/validators.py:210 | the average coverage divides by the number of columns, so a batch with no columns raises `ZeroDivisionError` instead of reporting its critical issues | `pd.DataFrame()` | no columns means no coverage penalty, and the batch is reported invalid | not executed | Validators.QualityScoreAsWrittenFails | Validators.CalculateQualityScore |
