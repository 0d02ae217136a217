# Stats aggregation of osm-analytics, in Dafny

This project models the statistics engine of the osm-analytics Stats panel.
The panel takes the features already fetched for each active layer and does
the following:

- It keeps the features that the time and user-experience selection admits
  (`applySelection`, `highlightedFeatures`).
- It folds every layer into a contributor tally, a sub-tag tally and one
  global `featureCount`. A layer whose first feature comes from a tile below
  zoom 13 is read as sampled bins. Each matching sample adds 1 to the
  tallies, and the bin adds `_count * matchingSamples / min(16, _count)` to
  `featureCount`. Such a layer also sets the `sampledContributorCounts`
  flag, which prints a "+" after the counts.
- It ranks both tallies by count, largest first. The list lengths are the
  distinct-contributor and distinct-tag counts.
- It prints one number per layer through `toFixed(0)` and
  `numberWithCommas`. `highways` and `waterways` show the summed length of
  their highlighted features. Every other layer shows the one shared
  `featureCount`.

The model also covers the sub-tags modal: the `total`, the `howMany` slice,
the "show more" button, `expand`, the reset on a props update, and the
percentage cell.

Modules follow the program's structure:

- `Selection`: filters and `applySelection`.
- `Features`: the feature record and the highlight pass.
- `Tallies`: the `(m[k] || 0) + 1` tally maps and their totals, and
  `BumpAll`, the tally of a list of keys, one increment per key in order.
  Every stage of the fold is stated as `BumpAll` over the keys it feeds.
- `Aggregation`: the fold over layers, covering sampled bins and exact features.
- `Ranking`: sorting the tallies into leaderboards.
- `Format`: `Math.round`, `toFixed(0)`, decimal strings and `numberWithCommas`.
- `Stats`: one render's snapshot.
- `SubTagsModal`: the sub-tags modal.
- `Arith`: `Math.min` and order facts about scaling reals by a positive factor.

Numbers are exact: `real` for `featureCount` and lengths, `int` for
timestamps, experience and uids.

## Model

| member | source | states |
|---|---|---|
| Selection.ApplySelection | app/components/Stats/index.js:53-68 | both filters null: always true; a non-null filter bounds the value's range from both sides; for ordered ranges and windows, the result holds iff in each dimension the value's range and the window share a point |
| Selection.OverlapIsCommonPoint | app/components/Stats/index.js:60-67 | the endpoint test `r[1] >= c && r[0] <= d` on ordered intervals is exactly "the intervals have a common point" |
| Selection.NullFiltersSelectEverything | app/components/Stats/index.js:61-66 | with time and experience filters both null, every input is selected |
| Selection.ScalarIsDegeneratePair | app/components/Stats/index.js:54-59 | a scalar argument gives the same answer as the pair `[v, v]` |
| Selection.ScalarPassesIffInside | app/components/Stats/index.js:60-67 | for scalars, each non-null window `[c, d]` passes iff `c <= v <= d`, and the two dimensions are combined with AND |
| Selection.OverlapSymmetric | app/components/Stats/index.js:62 | the overlap test is unchanged when value range and filter window swap roles |
| Features.Selected | app/components/Stats/index.js:78-90 | an exact feature with a truthy `_timestamp` goes through `applySelection` with its scalars; an aggregated one with its min/max ranges; a zero `_timestamp` passes only with both filters null |
| Features.Highlight | app/components/Stats/index.js:77-91 | the result is no longer than the input, holds only selected input features, and holds every selected input feature |
| Features.HighlightAppend | app/components/Stats/index.js:77-91 | the highlight pass distributes over concatenation, so it is the order-preserving filter |
| Features.HighlightSingleton | app/components/Stats/index.js:77-91 | on one feature the pass keeps it iff it is selected |
| Features.HighlightKeepsAllSelected | app/components/Stats/index.js:77-91 | when every feature is selected the highlighted list is the whole list |
| Features.HighlightIdempotent | app/components/Stats/index.js:77-91 | highlighting twice equals highlighting once |
| Tallies.Bump | app/components/Stats/index.js:116-117 | the key's count becomes its previous count (0 if absent) plus one, the key set gains that key, other counts are unchanged |
| Tallies.BumpTotal | app/components/Stats/index.js:116-117 | one increment raises the sum of all counts by exactly one |
| Tallies.MapTotalRemove | app/components/Stats/index.js:116-117 | the sum of counts is any one key's count plus the sum over the rest |
| Tallies.KeysOf | app/components/Stats/index.js:116-117 | the keys a list of contributions feeds a tally: one per element, in order, each the element's own uid or tag value |
| Tallies.KeysOfAppend | app/components/Stats/index.js:116-117 | the keys of a concatenation are the keys of each part, in order |
| Tallies.BumpAllCounts | app/components/Stats/index.js:116-117 | tallying a list of keys onto a map: each key's count grows by its number of occurrences in the list, the key set gains exactly the listed keys, and the total grows by the list's length |
| Tallies.BumpAllKeys | app/components/Stats/index.js:116-117 | tallying a list adds exactly its keys to the key set |
| Tallies.BumpAllMultiplicity | app/components/Stats/index.js:116-117 | tallying a list raises each key's count by its multiplicity in the list |
| Tallies.BumpAllTotal | app/components/Stats/index.js:116-117 | tallying a list raises the sum of counts by its length |
| Tallies.BumpAllAppend | app/components/Stats/index.js:116-117 | tallying `a + b` is tallying `a`, then `b` |
| Tallies.BumpAllFromEmpty | app/components/Stats/index.js:95-96 | from the empty object, a key's count is its multiplicity in the list, the keys are exactly the listed ones, and the total is the list's length |
| Aggregation.SampledMode | app/components/Stats/index.js:100 | a layer is read as sampled bins when its first feature's `tile.z` is below 13 |
| Aggregation.SampleSelected | app/components/Stats/index.js:115 | a sample matches when `applySelection` admits its timestamp and experience as scalars |
| Aggregation.MatchingSamples | app/components/Stats/index.js:111-120 | the matching samples are a selection of the bin's samples: only matching ones, all matching ones, no more than there are |
| Aggregation.MatchingSamplesAppend | app/components/Stats/index.js:111-120 | matching distributes over concatenation, so with the singleton case it is the order-preserving filter and its length counts matching positions, duplicates included |
| Aggregation.MatchingSamplesSingleton | app/components/Stats/index.js:114-119 | one sample is counted iff it is selected |
| Aggregation.MatchingAllSelected | app/components/Stats/index.js:111-120 | when every sample is selected, every sample matches |
| Aggregation.ScanSamples | app/components/Stats/index.js:106-120 | `matchingSamples` is the number of matching samples (at most the sample count), and the contributor and tag totals each grow by exactly that number |
| Aggregation.ScanSamplesTallies | app/components/Stats/index.js:111-120 | the sample loop leaves each tally equal to the old tally with the uids (tag values) of the matching samples tallied onto it, in sample order |
| Aggregation.ScanSamplesCounts | app/components/Stats/index.js:111-120 | after the sample loop a uid's count is its old count plus the number of matching samples carrying it, likewise for tag values, and the keys gained are exactly theirs |
| Aggregation.BinMeasure | app/components/Stats/index.js:122 | a bin adds 0 with no match, its whole `_count` when all `min(16, _count)` samples match, never a negative amount, and at most `_count` while matches stay within that bound |
| Aggregation.FullBinContributesCount | app/components/Stats/index.js:122 | a bin with `_count >= 16` whose 16 samples all match adds exactly `_count` |
| Aggregation.AddBin | app/components/Stats/index.js:106-123 | one bin raises `featureCount` by exactly its scaled measure of the matching samples; each tally becomes the old one with the matching samples' uids (tag values) tallied onto it; both totals grow by the number of matching samples; `featureCount` grows by at most `_count` when the bin carries no more than `min(16, _count)` samples |
| Aggregation.FullBinAddsCount | app/components/Stats/index.js:122 | folding in a bin of at least 16 features whose 16 samples all match raises `featureCount` by exactly `_count` |
| Aggregation.AddBins | app/components/Stats/index.js:106-123 | the bins of a sampled layer raise `featureCount` by the sum of their scaled measures; each tally becomes the old one with the matching samples of all bins, bin after bin, tallied onto it; each total grows by their number |
| Aggregation.CompleteBinsCountEverything | app/components/Stats/index.js:106-123 | when every bin carries `min(16, _count)` samples and all of them match, the scaled measures add up to the bins' `_count`s |
| Aggregation.AddFeature | app/components/Stats/index.js:125-129 | one highlighted feature adds exactly 1 to `featureCount`, to its uid's count and to its tag's count, and leaves every other count unchanged |
| Aggregation.AddFeatures | app/components/Stats/index.js:125-129 | an exact layer adds its number of highlighted features to `featureCount` and to both totals; each tally becomes the old one with the features' uids (tag values) tallied onto it in order |
| Aggregation.AddFeaturesCounts | app/components/Stats/index.js:125-129 | after an exact layer a uid's count is its old count plus the number of highlighted features carrying it, likewise for tag values, and the keys gained are exactly theirs |
| Aggregation.AddLayer | app/components/Stats/index.js:100-130 | the flag is set iff it was set or the layer's first feature has `tile.z < 13`; `featureCount` grows by the layer's measure (summed bin measures, or the number of highlighted features); each tally becomes the old one with the layer's keys tallied onto it: the matching samples of all its bins, highlighted or not, when sampled, else its highlighted features |
| Aggregation.SampledLayerCountsBins | app/components/Stats/index.js:100-123 | a sampled layer whose bins all carry complete, fully matching sample lists adds exactly the sum of its `_count`s to `featureCount` |
| Aggregation.AggregateFrom | app/components/Stats/index.js:99-131 | the sampled flag ends true iff it started true or some layer is in sampled mode; `featureCount` grows by the sum of the layers' measures; each tally becomes the starting one with every layer's keys tallied onto it, layer after layer |
| Aggregation.FoldStep | app/components/Stats/index.js:99-131 | folding in the first layer and then tallying the rest's keys is tallying all the layers' keys |
| Aggregation.LayersTail | app/components/Stats/index.js:99-100 | the remaining layers still have positive bin counts, and a sampled layer is present iff the head is sampled or one of the rest is |
| Aggregation.Aggregate | app/components/Stats/index.js:94-131 | `sampledContributorCounts` is true iff some layer's first feature has `tile.z < 13`; `featureCount` is the sum of the layers' measures, non-negative; a uid's count is the number of contributions credited to it over all layers (matching samples of sampled layers, highlighted features of exact ones), likewise for tag values; the keys are exactly the credited uids and tag values; each total is the number of contributions |
| Aggregation.ExactFoldCountsHighlighted | app/components/Stats/index.js:125-129 | with no sampled layer, both tally totals and `featureCount` grow by the number of highlighted features |
| Aggregation.ExactModeTotals | app/components/Stats/index.js:94-131 | in a render with only exact layers, contributor total, tag total and `featureCount` all equal the number of highlighted features, and the flag is off |
| Aggregation.FoldKeysAlign | app/components/Stats/index.js:116-117 | the fold feeds as many uids as tag values, one of each per contribution |
| Aggregation.TotalsInLockStep | app/components/Stats/index.js:99-131 | in both modes every contribution goes to a uid and a tag together, so the two totals grow equally |
| Ranking.Insert | app/components/Stats/index.js:135 | inserting into a list sorted by descending count keeps it sorted and adds exactly that entry |
| Ranking.SortByCount | app/components/Stats/index.js:135 | the result is sorted by count, non-increasing, and is a permutation of the input |
| Ranking.EntriesOf | app/components/Stats/index.js:132-134 | `Object.keys(...).map(...)` yields one entry per key of the tally, each carrying that key's count, and the counts sum to the tally total |
| Ranking.Rank | app/components/Stats/index.js:132-141 | the leaderboard has one entry per distinct key, sorted non-increasing; every entry carries its key's tally count; every key appears; the counts sum to the tally total |
| Ranking.RankedKeysDistinct | app/components/Stats/index.js:132-136 | a list as long as the tally that reaches every key names each key at most once |
| Ranking.SumCounts | app/components/Stats/subTagsModal.js:18 | the modal's `total`: the `reduce` sum of the counts |
| Ranking.SumCountsAppend | app/components/Stats/subTagsModal.js:18 | the `reduce` sum of counts splits over concatenation |
| Format.Round | app/components/Stats/index.js:142 | `Math.round` gives the integer within half a unit, halves rounding up |
| Format.RoundUnique | app/components/Stats/index.js:142 | that integer is unique |
| Format.RoundInteger | app/components/Stats/index.js:167 | rounding an integer gives it back, so `toFixed(0)` of the rounded `featureCount` is its own decimal string |
| Format.Digits | app/components/Stats/index.js:294 | `toString` of a whole number yields one or more decimal digits with no leading zero |
| Format.DigitsRoundTrip | app/components/Stats/index.js:294 | reading the decimal string back gives the number |
| Format.Fixed0 | app/components/Stats/index.js:167 | `toFixed(0)` yields a numeral: the digits of the value rounded half up, preceded by `-` for a negative value |
| Format.GroupThousands | app/components/Stats/index.js:294 | removing the commas gives back the digits; a comma stands exactly where a multiple of four characters remains; the length grows by `(n - 1) / 3` |
| Format.NumberWithCommas | app/components/Stats/index.js:293-295 | removing the commas gives back the input numeral; the sign stays in front; after the sign a comma stands exactly where a multiple of four characters remains, and the length grows by one comma per full group of three after the first |
| Format.WithCommasOfNatural | app/components/Stats/index.js:293-295 | for a natural number: commas removed give its digit string; commas stand exactly where a multiple of four characters remains, so the first group has one to three digits and every later group exactly three |
| Stats.MeasuresLength | app/components/Stats/index.js:162 | `highways` and `waterways` print a length instead of a count |
| Stats.LengthSum | app/components/Stats/index.js:164 | the `reduce` sum of `_length` over a list of features |
| Stats.LengthSumAppend | app/components/Stats/index.js:164 | the summed `_length` splits over concatenation |
| Stats.HighlightedLengthBound | app/components/Stats/index.js:164 | with non-negative lengths, the highlighted length lies between 0 and the length of all features |
| Stats.DisplayNumber | app/components/Stats/index.js:162-167 | a non-`highways`/`waterways` layer prints the grouped digits of the shared `featureCount` (its `toFixed(0)` is its own digit string); a length layer prints `numberWithCommas` of `toFixed(0)` of its highlighted length sum, whose commas removed give that `toFixed(0)` string |
| Stats.SharedFeatureCount | app/components/Stats/index.js:162-166 | two layers that do not measure length print the same number whatever their own features |
| Stats.CountLabel | app/components/Stats/index.js:188-193 | the contributors figure is `numberWithCommas` of the count's digits followed by `+` iff the counts come from samples; without commas it reads as the count's digits and that suffix |
| Stats.DisplayNumbers | app/components/Stats/index.js:159-179 | one printed number per layer, in layer order |
| Stats.HighlightAll | app/components/Stats/index.js:75-92 | every layer gets its own highlighted list, in layer order |
| Stats.ComputeSnapshot | app/components/Stats/index.js:94-142 | each leaderboard is sorted, lists every key of its tally with that key's count and nothing else, and sums to the tally total; `numContributors`/`numSubTags` equal the distinct key counts; flag iff some layer is sampled; `featureCount` is the fold's count rounded; every non-length layer prints the grouped digits of that count, all the same; a length layer prints `numberWithCommas(toFixed(0))` of its highlighted length sum; each label is `numberWithCommas` of its count followed by `+` iff sampled |
| SubTagsModal.HeaderCount | app/components/Stats/subTagsModal.js:25 | the header number is `min(howMany, subTags.length)` |
| SubTagsModal.Shown | app/components/Stats/subTagsModal.js:28 | the rows in view are the prefix of that length |
| SubTagsModal.ShowMore | app/components/Stats/subTagsModal.js:34 | the button is rendered when there are more sub-tags than `howMany` |
| SubTagsModal.ShowMoreIffHidden | app/components/Stats/subTagsModal.js:34-36 | "show more" appears iff some sub-tag is not in view |
| SubTagsModal.Expand | app/components/Stats/subTagsModal.js:48-52 | `expand` adds exactly 10 to `howMany` |
| SubTagsModal.ReceiveProps | app/components/Stats/subTagsModal.js:43-46 | on a props update an open modal resets `howMany` to 10; a closed one keeps its state |
| SubTagsModal.ExpandTimesAddsTen | app/components/Stats/subTagsModal.js:48-52 | `k` clicks add exactly `10 * k` rows |
| SubTagsModal.ExpandKeepsShown | app/components/Stats/subTagsModal.js:28 | expanding never hides a row: the old view is a prefix of the new one |
| SubTagsModal.EnoughClicksShowAll | app/components/Stats/subTagsModal.js:34-36 | from a fresh modal, `length / 10` clicks show every sub-tag and remove the button |
| SubTagsModal.PercentageOf | app/components/Stats/subTagsModal.js:31 | the cell is `<1` iff the total is 0 or `200 * count < total`; otherwise it is a whole percentage between 1 and 100, within half a unit of `count / total * 100` |
| SubTagsModal.PercentBounds | app/components/Stats/subTagsModal.js:31 | `Math.round(count / total * 100)` lies in `[0, 100]`, is 0 iff `200 * count < total`, and is within half a unit of the exact share |
| SubTagsModal.EntryWithinTotal | app/components/Stats/subTagsModal.js:18 | each sub-tag's count is at most the modal's `total` |
| SubTagsModal.Rows | app/components/Stats/subTagsModal.js:28-33 | one row per entry in view, holding its tag value and its percentage of the total |
| SubTagsModal.Render | app/components/Stats/subTagsModal.js:17-41 | the header equals the number of rows, which is `min(howMany, length)`; each row's percentage is computed against the total of all sub-tags; the button shows iff rows are hidden |

## Left out

- `update` is not modelled. It resolves the region, fans out one search per
  layer, joins the results, looks up HOT projects and calls `setState`. All
  of that is asynchronous network plumbing around collaborators that are not
  part of this model. The layers are taken as already fetched.
- The modal open/close toggles, `OverlayButton`, `Histogram`, `UnitSelector`,
  the HOT projects and contributors modals, the `moment` date descriptor and
  all JSX are presentation only.
- Unit conversion (`unitSystems[...].distance.convert`) is an injected
  function that is not part of this model. `Stats.DisplayNumber` formats
  the length sum before conversion.
- The semicolon-separated sample strings and their parsing with `Number` are
  not modelled. A bin's samples are taken as already decoded. They are one
  sequence of records, so the four lists have equal length by construction.
  The code itself never checks this.
- A sampled layer's bins are required to have `_count >= 1`
  (`Aggregation.CountsPositive`). With `_count == 0` the JavaScript yields
  NaN.
- Ranking.Rank: no order among equal counts is promised. The code sorts the
  keys in `Object.keys` order, which puts integer-like keys (numeric uids)
  in ascending order rather than insertion order. A first-seen tie-break
  would therefore not describe the code.
- Stats.LengthSum: the length sum is exact, whereas the code adds IEEE
  doubles left to right. The rounding of the running sum can move the
  printed integer across a half. For example, lengths 101.588, 329.552,
  443.854 and 135.506 add up to 1010.5 exactly, so the model prints
  `1,011`. The double `reduce` yields 1010.4999999999999, and the code
  prints `1,010`. `Stats.DisplayNumber` and `Stats.ComputeSnapshot` inherit
  this gap for `highways` and `waterways`.
- Aggregation.BinMeasure: the scaled measure is computed on exact
  rationals, not IEEE doubles, so floating-point rounding in `featureCount`
  is not modelled.
- SubTagsModal.PercentageOf: requires `count <= total`, which always holds
  at its one call site because `total` sums the same list. The
  Infinity/NaN text that `count / 0` with a positive count would print is
  not modelled. The share is computed on exact rationals, whereas the code
  rounds the IEEE double `count / total * 100`. At an exact half share that
  double can fall just below the half, and the code then prints one less
  than the model. For example, 23 of 40 prints `57%` where the model says
  58, and 29 of 200 prints `14%` where the model says 15. The `<1` case is
  not affected.
- SubTagsModal.PercentBounds: its half-unit bound is about the exact
  share. At an exact half share the code's double rounding can land one
  below it, as described for `PercentageOf`.
- Format.Fixed0: the exponent form that `toFixed` uses for magnitudes of
  10^21 and above is not modelled.
- Format.NumberWithCommas: modelled only on numerals (optional minus, then
  digits). Those are the only strings the panel passes to it.
- Tallies.Bump: the tallies are maps, while the code keeps them in plain
  JavaScript objects. A tag value that names an inherited `Object.prototype`
  member (`constructor`, `toString`, `valueOf`, ...) reads that function in
  `subTags[k] || 0`. Its count then becomes a string, which breaks the sort
  comparator and turns the modal's `total` into string concatenation.
  A `__proto__` tag value is never stored as a key, so it is missing from
  `Object.keys` and from `numSubTags`. The model counts all such values
  like any other. Numeric uids are not affected.
- `update` has no guard against a stale result. A slower, older request
  can overwrite a newer one. This race lies in the unmodelled network code.
