/**
 The aggregation fold of the Stats component: every layer feeds the shared
 contributor and sub-tag tallies and the single global `featureCount`; a
 layer whose first feature comes from a tile below zoom 13 is read as
 sampled bins and flips the `sampledContributorCounts` flag.
 */
module Aggregation {
  import opened Selection
  import opened Features
  import opened Tallies
  import opened Arith

  /** Tiles below this zoom carry sampled bins instead of complete data. */
  const SamplingZoom: int := 13

  /** The largest number of samples a bin carries. */
  const MaxSamples: int := 16

  /** A layer is read in sampled mode when its first feature's `tile.z` is below 13. */
  predicate SampledMode(layer: Layer)
  {
    |layer.features| > 0 && layer.features[0].z < SamplingZoom
  }

  /** Every bin of a sampled layer stands for at least one feature (`_count >= 1`). */
  predicate CountsPositive(layer: Layer)
  {
    SampledMode(layer) ==> forall i :: 0 <= i < |layer.features| ==> layer.features[i].count >= 1
  }

  /** The running state of the fold. */
  datatype Tally = Tally(
    contributors: map<int, nat>,
    subTags: map<string, nat>,
    featureCount: real,
    sampled: bool)

  /** The state before the first layer: empty tallies, zero count, flag off. */
  const Initial: Tally := Tally(map[], map[], 0.0, false)

  /** A sample is matched by calling `applySelection` on its two scalars. */
  predicate SampleSelected(x: Sample, s: FilterSet)
  {
    ApplySelection(Scalar(x.timestamp), Scalar(x.userExperience), s)
  }

  /** The samples of a bin that the selection admits, in order. */
  function MatchingSamples(xs: seq<Sample>, s: FilterSet): (r: seq<Sample>)
    ensures |r| <= |xs|
    ensures forall i :: 0 <= i < |r| ==> r[i] in xs && SampleSelected(r[i], s)
    ensures forall i :: 0 <= i < |xs| && SampleSelected(xs[i], s) ==> xs[i] in r
  {
    if xs == [] then []
    else if SampleSelected(xs[0], s) then [xs[0]] + MatchingSamples(xs[1..], s)
    else MatchingSamples(xs[1..], s)
  }

  /**
   Matching distributes over concatenation; together with its value on one
   sample this pins `MatchingSamples` down as the order-preserving filter,
   so its length counts matching positions, duplicates included.
   */
  lemma {:induction false} MatchingSamplesAppend(a: seq<Sample>, b: seq<Sample>, s: FilterSet)
    ensures MatchingSamples(a + b, s) == MatchingSamples(a, s) + MatchingSamples(b, s)
  {
    if a == [] {
      assert a + b == b;
    } else {
      assert (a + b)[0] == a[0];
      assert (a + b)[1..] == a[1..] + b;
      MatchingSamplesAppend(a[1..], b, s);
    }
  }

  /** On a single sample the scan counts it exactly when it is selected. */
  lemma MatchingSamplesSingleton(x: Sample, s: FilterSet)
    ensures MatchingSamples([x], s) == if SampleSelected(x, s) then [x] else []
  {
    assert [x][1..] == [];
  }

  /** When every sample is selected (for instance both filters null), every sample matches. */
  lemma {:induction false} MatchingAllSelected(xs: seq<Sample>, s: FilterSet)
    requires forall i :: 0 <= i < |xs| ==> SampleSelected(xs[i], s)
    ensures MatchingSamples(xs, s) == xs
  {
    if xs != [] {
      MatchingAllSelected(xs[1..], s);
    }
  }

  /** The tallies after scanning a bin's samples, and how many samples matched. */
  datatype Scan = Scan(contributors: map<int, nat>, subTags: map<string, nat>, matching: nat)

  /**
   The loop over one bin's samples: every matching sample adds 1 to its uid
   and to its tag value; `matchingSamples` counts them.
   */
  function ScanSamples(xs: seq<Sample>, s: FilterSet, contributors: map<int, nat>, subTags: map<string, nat>): (r: Scan)
    ensures r.matching == |MatchingSamples(xs, s)| <= |xs|
    ensures MapTotal(r.contributors) == MapTotal(contributors) + r.matching
    ensures MapTotal(r.subTags) == MapTotal(subTags) + r.matching
    decreases |xs|
  {
    if xs == [] then Scan(contributors, subTags, 0)
    else if SampleSelected(xs[0], s) then
      BumpTotal(contributors, xs[0].uid);
      BumpTotal(subTags, xs[0].tagValue);
      var rest := ScanSamples(xs[1..], s, Bump(contributors, xs[0].uid), Bump(subTags, xs[0].tagValue));
      Scan(rest.contributors, rest.subTags, rest.matching + 1)
    else
      ScanSamples(xs[1..], s, contributors, subTags)
  }

  /**
   A bin scan tallies exactly its matching samples: each adds one to its own
   uid and one to its own tag value, so a key's count grows by the number of
   matching samples naming it, and the keys added are exactly theirs.
   */
  lemma {:induction false} ScanSamplesTallies(xs: seq<Sample>, s: FilterSet, contributors: map<int, nat>, subTags: map<string, nat>)
    ensures ScanSamples(xs, s, contributors, subTags).contributors == BumpAll(contributors, KeysOf(MatchingSamples(xs, s), SampleUid))
    ensures ScanSamples(xs, s, contributors, subTags).subTags == BumpAll(subTags, KeysOf(MatchingSamples(xs, s), SampleTag))
  {
    ScanContributors(xs, s, contributors, subTags);
    ScanSubTags(xs, s, contributors, subTags);
  }

  /**
   Per key: after a bin scan, a uid's count is its old count plus the number
   of matching samples carrying it, and likewise for tag values; the keys
   gained are exactly those of the matching samples.
   */
  lemma ScanSamplesCounts(xs: seq<Sample>, s: FilterSet, contributors: map<int, nat>, subTags: map<string, nat>)
    ensures forall u :: CountOf(ScanSamples(xs, s, contributors, subTags).contributors, u)
                        == CountOf(contributors, u) + multiset(KeysOf(MatchingSamples(xs, s), SampleUid))[u]
    ensures forall g :: CountOf(ScanSamples(xs, s, contributors, subTags).subTags, g)
                        == CountOf(subTags, g) + multiset(KeysOf(MatchingSamples(xs, s), SampleTag))[g]
    ensures ScanSamples(xs, s, contributors, subTags).contributors.Keys
            == contributors.Keys + (set u | u in KeysOf(MatchingSamples(xs, s), SampleUid))
    ensures ScanSamples(xs, s, contributors, subTags).subTags.Keys
            == subTags.Keys + (set g | g in KeysOf(MatchingSamples(xs, s), SampleTag))
  {
    ScanSamplesTallies(xs, s, contributors, subTags);
    BumpAllCounts(contributors, KeysOf(MatchingSamples(xs, s), SampleUid));
    BumpAllCounts(subTags, KeysOf(MatchingSamples(xs, s), SampleTag));
  }

  /** The contributor half of `ScanSamplesTallies`. */
  lemma {:induction false} ScanContributors(xs: seq<Sample>, s: FilterSet, contributors: map<int, nat>, subTags: map<string, nat>)
    ensures ScanSamples(xs, s, contributors, subTags).contributors == BumpAll(contributors, KeysOf(MatchingSamples(xs, s), SampleUid))
    decreases |xs|
  {
    if xs != [] {
      var x := xs[0];
      if SampleSelected(x, s) {
        var c' := Bump(contributors, x.uid);
        var t' := Bump(subTags, x.tagValue);
        ScanSelectedFirst(xs, s, contributors, subTags);
        MatchingKeysCons(xs, s, SampleUid);
        BumpAllCons(contributors, x.uid, KeysOf(MatchingSamples(xs[1..], s), SampleUid));
        ScanContributors(xs[1..], s, c', t');
      } else {
        ScanSkippedFirst(xs, s, contributors, subTags);
        ScanContributors(xs[1..], s, contributors, subTags);
      }
    }
  }

  /** The sub-tag half of `ScanSamplesTallies`. */
  lemma {:induction false} ScanSubTags(xs: seq<Sample>, s: FilterSet, contributors: map<int, nat>, subTags: map<string, nat>)
    ensures ScanSamples(xs, s, contributors, subTags).subTags == BumpAll(subTags, KeysOf(MatchingSamples(xs, s), SampleTag))
    decreases |xs|
  {
    if xs != [] {
      var x := xs[0];
      if SampleSelected(x, s) {
        var c' := Bump(contributors, x.uid);
        var t' := Bump(subTags, x.tagValue);
        ScanSelectedFirst(xs, s, contributors, subTags);
        MatchingKeysCons(xs, s, SampleTag);
        BumpAllCons(subTags, x.tagValue, KeysOf(MatchingSamples(xs[1..], s), SampleTag));
        ScanSubTags(xs[1..], s, c', t');
      } else {
        ScanSkippedFirst(xs, s, contributors, subTags);
        ScanSubTags(xs[1..], s, contributors, subTags);
      }
    }
  }

  /** A matching first sample is tallied before the rest of the bin is scanned. */
  lemma ScanSelectedFirst(xs: seq<Sample>, s: FilterSet, contributors: map<int, nat>, subTags: map<string, nat>)
    requires xs != [] && SampleSelected(xs[0], s)
    ensures var rest := ScanSamples(xs[1..], s, Bump(contributors, xs[0].uid), Bump(subTags, xs[0].tagValue));
      && ScanSamples(xs, s, contributors, subTags).contributors == rest.contributors
      && ScanSamples(xs, s, contributors, subTags).subTags == rest.subTags
  {
  }

  /** A first sample that does not match leaves the tallies and the matching list to the rest of the bin. */
  lemma ScanSkippedFirst(xs: seq<Sample>, s: FilterSet, contributors: map<int, nat>, subTags: map<string, nat>)
    requires xs != [] && !SampleSelected(xs[0], s)
    ensures ScanSamples(xs, s, contributors, subTags) == ScanSamples(xs[1..], s, contributors, subTags)
    ensures MatchingSamples(xs, s) == MatchingSamples(xs[1..], s)
  {
  }

  /** When the first sample matches, its key heads the keys of the matching list. */
  lemma MatchingKeysCons<K>(xs: seq<Sample>, s: FilterSet, key: Sample -> K)
    requires xs != [] && SampleSelected(xs[0], s)
    ensures KeysOf(MatchingSamples(xs, s), key) == [key(xs[0])] + KeysOf(MatchingSamples(xs[1..], s), key)
  {
    var m := MatchingSamples(xs, s);
    assert m == [xs[0]] + MatchingSamples(xs[1..], s);
    assert m[1..] == MatchingSamples(xs[1..], s);
  }

  /** Tallying `[k] + ks` is bumping `k`, then tallying `ks`. */
  lemma BumpAllCons<K>(m: map<K, nat>, k: K, ks: seq<K>)
    ensures BumpAll(m, [k] + ks) == BumpAll(Bump(m, k), ks)
  {
    assert ([k] + ks)[0] == k;
    assert ([k] + ks)[1..] == ks;
  }

  /**
   The share of `featureCount` a bin adds: `_count * matchingSamples / min(16, _count)`,
   the matching samples scaled up to the number of features the bin stands for.
   It is zero with no match, the bin's whole `_count` when every one of its
   `min(16, _count)` samples matches, and never more than `_count` while the
   matches stay within that bound.
   */
  function BinMeasure(count: int, matching: nat): (r: real)
    requires count >= 1
    ensures matching == 0 ==> r == 0.0
    ensures matching == Min(MaxSamples, count) ==> r == count as real
    ensures 0.0 <= r
    ensures matching <= Min(MaxSamples, count) ==> r <= count as real
  {
    ScaledShare(count as real, matching as real, Min(MaxSamples, count) as real);
    (count as real) * (matching as real) / (Min(MaxSamples, count) as real)
  }

  /** `c * m / k` for positive `c` and `k` and `0 <= m`: zero at `m == 0`, `c` at `m == k`, within `[0, c]` for `m <= k`. */
  lemma ScaledShare(c: real, m: real, k: real)
    requires c > 0.0 && k > 0.0 && m >= 0.0
    ensures m == 0.0 ==> c * m / k == 0.0
    ensures m == k ==> c * m / k == c
    ensures 0.0 <= c * m / k
    ensures m <= k ==> c * m / k <= c
  {
    ScaleWeak(0.0, m, c);
    DivideWeak(0.0, c * m, k);
    assert (c * k) / k == c;
    if m <= k {
      ScaleWeak(m, k, c);
      DivideWeak(c * m, c * k, k);
    }
  }

  /** A bin with at least 16 features whose 16 samples all match contributes exactly `_count`. */
  lemma FullBinContributesCount(count: int)
    requires count >= MaxSamples
    ensures BinMeasure(count, MaxSamples) == count as real
  {
  }

  /** One bin folded in: tallies from its matching samples, scaled measure into `featureCount`. */
  function AddBin(t: Tally, f: Feature, s: FilterSet): (r: Tally)
    requires f.count >= 1
    ensures r.sampled == t.sampled
    ensures r.featureCount == t.featureCount + BinMeasure(f.count, |MatchingSamples(f.samples, s)|)
    ensures r.contributors == BumpAll(t.contributors, KeysOf(MatchingSamples(f.samples, s), SampleUid))
    ensures r.subTags == BumpAll(t.subTags, KeysOf(MatchingSamples(f.samples, s), SampleTag))
    ensures MapTotal(r.contributors) == MapTotal(t.contributors) + |MatchingSamples(f.samples, s)|
    ensures MapTotal(r.subTags) == MapTotal(t.subTags) + |MatchingSamples(f.samples, s)|
    ensures |f.samples| <= Min(MaxSamples, f.count) ==> r.featureCount <= t.featureCount + f.count as real
  {
    var scan := ScanSamples(f.samples, s, t.contributors, t.subTags);
    ScanSamplesTallies(f.samples, s, t.contributors, t.subTags);
    BumpAllTotal(t.contributors, KeysOf(MatchingSamples(f.samples, s), SampleUid));
    BumpAllTotal(t.subTags, KeysOf(MatchingSamples(f.samples, s), SampleTag));
    Tally(scan.contributors, scan.subTags, t.featureCount + BinMeasure(f.count, scan.matching), t.sampled)
  }

  /** A bin of at least 16 features whose 16 samples all match adds exactly its `_count` to `featureCount`. */
  lemma FullBinAddsCount(t: Tally, f: Feature, s: FilterSet)
    requires f.count >= MaxSamples && |MatchingSamples(f.samples, s)| == MaxSamples
    ensures AddBin(t, f, s).featureCount == t.featureCount + f.count as real
  {
    FullBinContributesCount(f.count);
  }

  /** The matching samples of all bins of a layer, bin after bin. */
  function BinMatches(fs: seq<Feature>, s: FilterSet): seq<Sample>
  {
    if fs == [] then [] else MatchingSamples(fs[0].samples, s) + BinMatches(fs[1..], s)
  }

  /** The scaled measures of all bins of a layer, summed. */
  function MeasureSum(fs: seq<Feature>, s: FilterSet): real
    requires forall i :: 0 <= i < |fs| ==> fs[i].count >= 1
  {
    if fs == [] then 0.0 else BinMeasure(fs[0].count, |MatchingSamples(fs[0].samples, s)|) + MeasureSum(fs[1..], s)
  }

  /** The `_count`s of all bins of a layer, summed. */
  function CountSum(fs: seq<Feature>): int
  {
    if fs == [] then 0 else fs[0].count + CountSum(fs[1..])
  }

  /**
   All bins of a sampled layer folded in, in order: `featureCount` grows by
   their summed measures, and the tallies count the matching samples of all
   bins together.
   */
  function AddBins(t: Tally, fs: seq<Feature>, s: FilterSet): (r: Tally)
    requires forall i :: 0 <= i < |fs| ==> fs[i].count >= 1
    ensures r.sampled == t.sampled
    ensures r.featureCount == t.featureCount + MeasureSum(fs, s)
    ensures r.featureCount >= t.featureCount
    ensures r.contributors == BumpAll(t.contributors, KeysOf(BinMatches(fs, s), SampleUid))
    ensures r.subTags == BumpAll(t.subTags, KeysOf(BinMatches(fs, s), SampleTag))
    ensures MapTotal(r.contributors) == MapTotal(t.contributors) + |BinMatches(fs, s)|
    ensures MapTotal(r.subTags) == MapTotal(t.subTags) + |BinMatches(fs, s)|
    decreases |fs|
  {
    if fs == [] then t
    else
      var m := MatchingSamples(fs[0].samples, s);
      var rest := BinMatches(fs[1..], s);
      KeysOfAppend(m, rest, SampleUid);
      KeysOfAppend(m, rest, SampleTag);
      BumpAllAppend(t.contributors, KeysOf(m, SampleUid), KeysOf(rest, SampleUid));
      BumpAllAppend(t.subTags, KeysOf(m, SampleTag), KeysOf(rest, SampleTag));
      BumpAllTotal(t.contributors, KeysOf(m + rest, SampleUid));
      BumpAllTotal(t.subTags, KeysOf(m + rest, SampleTag));
      AddBins(AddBin(t, fs[0], s), fs[1..], s)
  }

  /**
   When every bin carries a complete sample list (`min(16, _count)` samples)
   and all of them match, the scaled measures add up to the bins' `_count`s.
   */
  lemma {:induction false} CompleteBinsCountEverything(fs: seq<Feature>, s: FilterSet)
    requires forall i :: 0 <= i < |fs| ==> fs[i].count >= 1
    requires forall i :: 0 <= i < |fs| ==> |fs[i].samples| == Min(MaxSamples, fs[i].count)
    requires forall i :: 0 <= i < |fs| ==> forall j :: 0 <= j < |fs[i].samples| ==> SampleSelected(fs[i].samples[j], s)
    ensures MeasureSum(fs, s) == CountSum(fs) as real
  {
    if fs != [] {
      MatchingAllSelected(fs[0].samples, s);
      assert forall i :: 1 <= i < |fs| ==> fs[1..][i - 1] == fs[i];
      CompleteBinsCountEverything(fs[1..], s);
    }
  }

  /** One highlighted feature of an exact layer: 1 to its uid, 1 to its tag, 1 to `featureCount`. */
  function AddFeature(t: Tally, f: Feature): (r: Tally)
    ensures r.sampled == t.sampled
    ensures r.featureCount == t.featureCount + 1.0
    ensures r.contributors.Keys == t.contributors.Keys + {f.uid}
    ensures r.subTags.Keys == t.subTags.Keys + {f.tagValue}
    ensures r.contributors[f.uid] == CountOf(t.contributors, f.uid) + 1
    ensures r.subTags[f.tagValue] == CountOf(t.subTags, f.tagValue) + 1
    ensures forall u :: u in t.contributors && u != f.uid ==> r.contributors[u] == t.contributors[u]
    ensures forall g :: g in t.subTags && g != f.tagValue ==> r.subTags[g] == t.subTags[g]
    ensures MapTotal(r.contributors) == MapTotal(t.contributors) + 1
    ensures MapTotal(r.subTags) == MapTotal(t.subTags) + 1
  {
    BumpTotal(t.contributors, f.uid);
    BumpTotal(t.subTags, f.tagValue);
    Tally(Bump(t.contributors, f.uid), Bump(t.subTags, f.tagValue), t.featureCount + 1.0, t.sampled)
  }

  /**
   All highlighted features of an exact layer folded in, in order: each
   counts once in `featureCount`, once for its uid and once for its tag.
   */
  function AddFeatures(t: Tally, hs: seq<Feature>): (r: Tally)
    ensures r.sampled == t.sampled
    ensures r.featureCount == t.featureCount + |hs| as real
    ensures r.contributors == BumpAll(t.contributors, KeysOf(hs, FeatureUid))
    ensures r.subTags == BumpAll(t.subTags, KeysOf(hs, FeatureTag))
    ensures MapTotal(r.contributors) == MapTotal(t.contributors) + |hs|
    ensures MapTotal(r.subTags) == MapTotal(t.subTags) + |hs|
    decreases |hs|
  {
    if hs == [] then t
    else
      BumpAllCons(t.contributors, hs[0].uid, KeysOf(hs[1..], FeatureUid));
      BumpAllCons(t.subTags, hs[0].tagValue, KeysOf(hs[1..], FeatureTag));
      BumpAllTotal(t.contributors, KeysOf(hs, FeatureUid));
      BumpAllTotal(t.subTags, KeysOf(hs, FeatureTag));
      AddFeatures(AddFeature(t, hs[0]), hs[1..])
  }

  /**
   Per key: folding in highlighted features raises a uid's count by the
   number of those features carrying it, and likewise for tag values; the
   keys gained are exactly theirs.
   */
  lemma AddFeaturesCounts(t: Tally, hs: seq<Feature>)
    ensures forall u :: CountOf(AddFeatures(t, hs).contributors, u) == CountOf(t.contributors, u) + multiset(KeysOf(hs, FeatureUid))[u]
    ensures forall g :: CountOf(AddFeatures(t, hs).subTags, g) == CountOf(t.subTags, g) + multiset(KeysOf(hs, FeatureTag))[g]
    ensures AddFeatures(t, hs).contributors.Keys == t.contributors.Keys + (set u | u in KeysOf(hs, FeatureUid))
    ensures AddFeatures(t, hs).subTags.Keys == t.subTags.Keys + (set g | g in KeysOf(hs, FeatureTag))
  {
    BumpAllCounts(t.contributors, KeysOf(hs, FeatureUid));
    BumpAllCounts(t.subTags, KeysOf(hs, FeatureTag));
  }

  /** What one layer feeds the tallies: its bins' matching samples when sampled, else its highlighted features. */
  function LayerUids(layer: Layer, s: FilterSet): seq<int>
  {
    if SampledMode(layer) then KeysOf(BinMatches(layer.features, s), SampleUid)
    else KeysOf(Highlight(layer.features, s), FeatureUid)
  }

  /** The tag values one layer feeds the sub-tag tally, one per contribution. */
  function LayerTags(layer: Layer, s: FilterSet): seq<string>
  {
    if SampledMode(layer) then KeysOf(BinMatches(layer.features, s), SampleTag)
    else KeysOf(Highlight(layer.features, s), FeatureTag)
  }

  /** What one layer adds to `featureCount`: its bins' summed measures, or its number of highlighted features. */
  function LayerMeasure(layer: Layer, s: FilterSet): real
    requires CountsPositive(layer)
  {
    if SampledMode(layer) then MeasureSum(layer.features, s) else |Highlight(layer.features, s)| as real
  }

  /**
   One layer folded in: a sampled layer scans all of its bins (not only the
   highlighted ones) and sets the flag; an exact layer adds its highlighted
   features.
   */
  function AddLayer(t: Tally, layer: Layer, s: FilterSet): (r: Tally)
    requires CountsPositive(layer)
    ensures r.sampled == (t.sampled || SampledMode(layer))
    ensures r.featureCount == t.featureCount + LayerMeasure(layer, s)
    ensures r.featureCount >= t.featureCount
    ensures r.contributors == BumpAll(t.contributors, LayerUids(layer, s))
    ensures r.subTags == BumpAll(t.subTags, LayerTags(layer, s))
    ensures !SampledMode(layer) ==> r == AddFeatures(t, Highlight(layer.features, s))
  {
    if SampledMode(layer) then AddBins(t.(sampled := true), layer.features, s)
    else AddFeatures(t, Highlight(layer.features, s))
  }

  /**
   A sampled layer whose bins all carry complete sample lists that all match
   adds exactly the sum of its bins' `_count`s to `featureCount`.
   */
  lemma SampledLayerCountsBins(t: Tally, layer: Layer, s: FilterSet)
    requires SampledMode(layer) && CountsPositive(layer)
    requires forall i :: 0 <= i < |layer.features| ==> |layer.features[i].samples| == Min(MaxSamples, layer.features[i].count)
    requires forall i :: 0 <= i < |layer.features| ==>
               forall j :: 0 <= j < |layer.features[i].samples| ==> SampleSelected(layer.features[i].samples[j], s)
    ensures AddLayer(t, layer, s).featureCount == t.featureCount + CountSum(layer.features) as real
  {
    CompleteBinsCountEverything(layer.features, s);
  }

  /** The uids all layers feed the contributor tally, layer after layer. */
  function FoldUids(layers: seq<Layer>, s: FilterSet): seq<int>
  {
    if layers == [] then [] else LayerUids(layers[0], s) + FoldUids(layers[1..], s)
  }

  /** The tag values all layers feed the sub-tag tally, layer after layer. */
  function FoldTags(layers: seq<Layer>, s: FilterSet): seq<string>
  {
    if layers == [] then [] else LayerTags(layers[0], s) + FoldTags(layers[1..], s)
  }

  /** What all layers add to `featureCount`. */
  function FoldMeasure(layers: seq<Layer>, s: FilterSet): real
    requires forall i :: 0 <= i < |layers| ==> CountsPositive(layers[i])
  {
    if layers == [] then 0.0
    else
      assert forall i :: 1 <= i < |layers| ==> layers[1..][i - 1] == layers[i];
      LayerMeasure(layers[0], s) + FoldMeasure(layers[1..], s)
  }

  /** The number of highlighted features over a sequence of layers. */
  function HighlightedCount(layers: seq<Layer>, s: FilterSet): nat
  {
    if layers == [] then 0
    else |Highlight(layers[0].features, s)| + HighlightedCount(layers[1..], s)
  }

  /**
   The fold over the layers, in order, from a given state: the tallies count
   what every layer feeds them, and `featureCount` grows by every layer's
   measure.
   */
  function AggregateFrom(t: Tally, layers: seq<Layer>, s: FilterSet): (r: Tally)
    requires forall i :: 0 <= i < |layers| ==> CountsPositive(layers[i])
    ensures r.sampled <==> t.sampled || exists i :: 0 <= i < |layers| && SampledMode(layers[i])
    ensures r.featureCount == t.featureCount + FoldMeasure(layers, s)
    ensures r.featureCount >= t.featureCount
    ensures r.contributors == BumpAll(t.contributors, FoldUids(layers, s))
    ensures r.subTags == BumpAll(t.subTags, FoldTags(layers, s))
    decreases |layers|
  {
    if layers == [] then t
    else
      LayersTail(layers);
      FoldStep(t, layers, s);
      AggregateFrom(AddLayer(t, layers[0], s), layers[1..], s)
  }

  /** The remaining layers keep positive counts, and hold a sampled layer exactly when the head is not the only one. */
  lemma LayersTail(layers: seq<Layer>)
    requires layers != []
    requires forall i :: 0 <= i < |layers| ==> CountsPositive(layers[i])
    ensures forall i :: 0 <= i < |layers[1..]| ==> CountsPositive(layers[1..][i])
    ensures (exists i :: 0 <= i < |layers| && SampledMode(layers[i]))
            <==> SampledMode(layers[0]) || exists i :: 0 <= i < |layers[1..]| && SampledMode(layers[1..][i])
  {
    assert forall i :: 1 <= i < |layers| ==> layers[1..][i - 1] == layers[i];
  }

  /** Folding the first layer in, then the rest, tallies what the whole fold feeds. */
  lemma FoldStep(t: Tally, layers: seq<Layer>, s: FilterSet)
    requires layers != [] && CountsPositive(layers[0])
    ensures BumpAll(AddLayer(t, layers[0], s).contributors, FoldUids(layers[1..], s)) == BumpAll(t.contributors, FoldUids(layers, s))
    ensures BumpAll(AddLayer(t, layers[0], s).subTags, FoldTags(layers[1..], s)) == BumpAll(t.subTags, FoldTags(layers, s))
  {
    BumpAllAppend(t.contributors, LayerUids(layers[0], s), FoldUids(layers[1..], s));
    BumpAllAppend(t.subTags, LayerTags(layers[0], s), FoldTags(layers[1..], s));
  }

  /**
   The aggregation of one render, from the empty state: a uid's count is the
   number of contributions credited to it over all layers, the keys are
   exactly the uids and tag values credited, each total is the number of
   contributions, and `featureCount` is the sum of the layers' measures.
   */
  function Aggregate(layers: seq<Layer>, s: FilterSet): (r: Tally)
    requires forall i :: 0 <= i < |layers| ==> CountsPositive(layers[i])
    ensures r.sampled <==> exists i :: 0 <= i < |layers| && SampledMode(layers[i])
    ensures r.featureCount == FoldMeasure(layers, s) >= 0.0
    ensures forall u :: CountOf(r.contributors, u) == multiset(FoldUids(layers, s))[u]
    ensures forall g :: CountOf(r.subTags, g) == multiset(FoldTags(layers, s))[g]
    ensures r.contributors.Keys == set u | u in FoldUids(layers, s)
    ensures r.subTags.Keys == set g | g in FoldTags(layers, s)
    ensures MapTotal(r.contributors) == |FoldUids(layers, s)|
    ensures MapTotal(r.subTags) == |FoldTags(layers, s)|
  {
    BumpAllFromEmpty(FoldUids(layers, s));
    BumpAllFromEmpty(FoldTags(layers, s));
    AggregateFrom(Initial, layers, s)
  }

  /**
   With no sampled layer, every highlighted feature was counted once in each
   of the three tallies: the contributor total, the sub-tag total and
   `featureCount` all grow by the number of highlighted features.
   */
  lemma {:induction false} ExactFoldCountsHighlighted(t: Tally, layers: seq<Layer>, s: FilterSet)
    requires forall i :: 0 <= i < |layers| ==> !SampledMode(layers[i])
    ensures MapTotal(AggregateFrom(t, layers, s).contributors) == MapTotal(t.contributors) + HighlightedCount(layers, s)
    ensures MapTotal(AggregateFrom(t, layers, s).subTags) == MapTotal(t.subTags) + HighlightedCount(layers, s)
    ensures AggregateFrom(t, layers, s).featureCount == t.featureCount + HighlightedCount(layers, s) as real
    decreases |layers|
  {
    if layers != [] {
      assert forall i :: 1 <= i < |layers| ==> layers[1..][i - 1] == layers[i];
      var t' := AddLayer(t, layers[0], s);
      ExactFoldCountsHighlighted(t', layers[1..], s);
    }
  }

  /** In a render with only exact layers, all tallies sum to the number of highlighted features. */
  lemma ExactModeTotals(layers: seq<Layer>, s: FilterSet)
    requires forall i :: 0 <= i < |layers| ==> !SampledMode(layers[i])
    ensures MapTotal(Aggregate(layers, s).contributors) == HighlightedCount(layers, s)
    ensures MapTotal(Aggregate(layers, s).subTags) == HighlightedCount(layers, s)
    ensures Aggregate(layers, s).featureCount == HighlightedCount(layers, s) as real
    ensures !Aggregate(layers, s).sampled
  {
    ExactFoldCountsHighlighted(Initial, layers, s);
  }

  /** Every contribution credits a uid and a tag value together, so both lists have the same length. */
  lemma {:induction false} FoldKeysAlign(layers: seq<Layer>, s: FilterSet)
    ensures |FoldUids(layers, s)| == |FoldTags(layers, s)|
  {
    if layers != [] {
      FoldKeysAlign(layers[1..], s);
    }
  }

  /** The contributor and sub-tag totals grow in lock-step, in both modes. */
  lemma TotalsInLockStep(t: Tally, layers: seq<Layer>, s: FilterSet)
    requires forall i :: 0 <= i < |layers| ==> CountsPositive(layers[i])
    ensures MapTotal(AggregateFrom(t, layers, s).contributors) - MapTotal(t.contributors)
              == MapTotal(AggregateFrom(t, layers, s).subTags) - MapTotal(t.subTags)
  {
    FoldKeysAlign(layers, s);
    BumpAllTotal(t.contributors, FoldUids(layers, s));
    BumpAllTotal(t.subTags, FoldTags(layers, s));
  }
}
