/**
 One render of the Stats panel over already fetched layers: the highlight
 pass, the aggregation fold, the two leaderboards and their sizes, the
 rounded `featureCount`, and the number printed for each layer.
 */
module Stats {
  import opened Selection
  import opened Features
  import opened Tallies
  import opened Aggregation
  import opened Ranking
  import opened Format

  /** Layers whose number is a total length rather than a feature count. */
  predicate MeasuresLength(name: string)
  {
    name == "highways" || name == "waterways"
  }

  /** `reduce((prev, feature) => prev + (feature.properties._length || 0.0), 0.0)`. */
  function LengthSum(fs: seq<Feature>): real
  {
    if fs == [] then 0.0 else fs[0].length + LengthSum(fs[1..])
  }

  /** The length sum splits over concatenation. */
  lemma {:induction false} LengthSumAppend(a: seq<Feature>, b: seq<Feature>)
    ensures LengthSum(a + b) == LengthSum(a) + LengthSum(b)
  {
    if a == [] {
      assert a + b == b;
    } else {
      assert (a + b)[1..] == a[1..] + b;
      LengthSumAppend(a[1..], b);
    }
  }

  /** With non-negative lengths, highlighting can only shorten the total. */
  lemma {:induction false} HighlightedLengthBound(fs: seq<Feature>, s: FilterSet)
    requires forall i :: 0 <= i < |fs| ==> fs[i].length >= 0.0
    ensures 0.0 <= LengthSum(Highlight(fs, s)) <= LengthSum(fs)
  {
    if fs != [] {
      HighlightedLengthBound(fs[1..], s);
      if Selected(fs[0], s) {
        assert Highlight(fs, s)[1..] == Highlight(fs[1..], s);
      }
    }
  }

  /**
   The number printed for one layer: `numberWithCommas(Number(...).toFixed(0))`
   of the summed length of its highlighted features for `highways` and
   `waterways` (before unit conversion), and of the one shared
   `featureCount` for every other layer.
   */
  function DisplayNumber(layer: Layer, s: FilterSet, featureCount: nat): (r: string)
    ensures !MeasuresLength(layer.name) ==> r == NumberWithCommas(Digits(featureCount))
    ensures MeasuresLength(layer.name) ==> r == NumberWithCommas(Fixed0(LengthSum(Highlight(layer.features, s))))
    ensures MeasuresLength(layer.name) ==> RemoveCommas(r) == Fixed0(LengthSum(Highlight(layer.features, s)))
  {
    var value := if MeasuresLength(layer.name) then LengthSum(Highlight(layer.features, s)) else featureCount as real;
    RoundInteger(featureCount);
    NumberWithCommas(Fixed0(value))
  }

  /** Every layer that does not measure length prints the very same number, whatever its own features. */
  lemma SharedFeatureCount(a: Layer, b: Layer, s: FilterSet, featureCount: nat)
    requires !MeasuresLength(a.name) && !MeasuresLength(b.name)
    ensures DisplayNumber(a, s, featureCount) == DisplayNumber(b, s, featureCount)
  {
  }

  /** The contributors / distinct tags figure: grouped digits, with `+` when counts come from samples. */
  function CountLabel(n: nat, sampled: bool): (r: string)
    ensures r == NumberWithCommas(Digits(n)) + (if sampled then "+" else "")
    ensures RemoveCommas(r) == Digits(n) + (if sampled then "+" else "")
  {
    var d := Digits(n);
    assert d[0] != '-' && AllDigits(d);
    var g := NumberWithCommas(d);
    var suffix := if sampled then "+" else "";
    RemoveCommasAppend(g, suffix);
    RemoveCommasNone(suffix);
    g + suffix
  }

  /** What one render computes. */
  datatype Snapshot = Snapshot(
    highlighted: seq<seq<Feature>>,
    contributors: seq<Entry<int>>,
    numContributors: nat,
    subTags: seq<Entry<string>>,
    numSubTags: nat,
    sampled: bool,
    featureCount: nat,
    numbers: seq<string>,
    contributorsLabel: string,
    subTagsLabel: string)

  /** The numbers of all layers, in order. */
  function DisplayNumbers(layers: seq<Layer>, s: FilterSet, featureCount: nat): (r: seq<string>)
    ensures |r| == |layers|
    ensures forall i :: 0 <= i < |layers| ==> r[i] == DisplayNumber(layers[i], s, featureCount)
  {
    if layers == [] then [] else [DisplayNumber(layers[0], s, featureCount)] + DisplayNumbers(layers[1..], s, featureCount)
  }

  /** The highlighted features of every layer, in order. */
  function HighlightAll(layers: seq<Layer>, s: FilterSet): (r: seq<seq<Feature>>)
    ensures |r| == |layers|
    ensures forall i :: 0 <= i < |layers| ==> r[i] == Highlight(layers[i].features, s)
  {
    if layers == [] then [] else [Highlight(layers[0].features, s)] + HighlightAll(layers[1..], s)
  }

  /**
   `render`'s computation: highlight every layer, fold all layers into the
   tallies, rank both tallies, round `featureCount`, and format the numbers.
   */
  method ComputeSnapshot(layers: seq<Layer>, s: FilterSet) returns (snap: Snapshot)
    requires forall i :: 0 <= i < |layers| ==> CountsPositive(layers[i])
    ensures |snap.highlighted| == |layers|
    ensures forall i :: 0 <= i < |layers| ==> snap.highlighted[i] == Highlight(layers[i].features, s)
    ensures |snap.numbers| == |layers|
    ensures forall i :: 0 <= i < |layers| && !MeasuresLength(layers[i].name) ==>
              snap.numbers[i] == NumberWithCommas(Digits(snap.featureCount))
    ensures forall i :: 0 <= i < |layers| && MeasuresLength(layers[i].name) ==>
              snap.numbers[i] == NumberWithCommas(Fixed0(LengthSum(snap.highlighted[i])))
    ensures forall i :: 0 <= i < |layers| && MeasuresLength(layers[i].name) ==>
              RemoveCommas(snap.numbers[i]) == Fixed0(LengthSum(snap.highlighted[i]))
    ensures forall i, j ::
              (0 <= i < |layers| && 0 <= j < |layers| && !MeasuresLength(layers[i].name) && !MeasuresLength(layers[j].name))
              ==> snap.numbers[i] == snap.numbers[j]
    ensures snap.contributorsLabel == CountLabel(snap.numContributors, snap.sampled)
    ensures snap.subTagsLabel == CountLabel(snap.numSubTags, snap.sampled)
    ensures snap.contributorsLabel == NumberWithCommas(Digits(snap.numContributors)) + (if snap.sampled then "+" else "")
    ensures snap.subTagsLabel == NumberWithCommas(Digits(snap.numSubTags)) + (if snap.sampled then "+" else "")
    ensures RemoveCommas(snap.contributorsLabel) == Digits(snap.numContributors) + (if snap.sampled then "+" else "")
    ensures RemoveCommas(snap.subTagsLabel) == Digits(snap.numSubTags) + (if snap.sampled then "+" else "")
    ensures snap.numContributors == |snap.contributors| == |Aggregate(layers, s).contributors|
    ensures snap.numSubTags == |snap.subTags| == |Aggregate(layers, s).subTags|
    ensures NonIncreasing(snap.contributors) && NonIncreasing(snap.subTags)
    ensures forall i :: 0 <= i < |snap.contributors| ==>
              snap.contributors[i].key in Aggregate(layers, s).contributors &&
              snap.contributors[i].count == Aggregate(layers, s).contributors[snap.contributors[i].key]
    ensures forall u :: u in Aggregate(layers, s).contributors ==>
              exists i :: 0 <= i < |snap.contributors| && snap.contributors[i].key == u
    ensures forall i :: 0 <= i < |snap.subTags| ==>
              snap.subTags[i].key in Aggregate(layers, s).subTags &&
              snap.subTags[i].count == Aggregate(layers, s).subTags[snap.subTags[i].key]
    ensures forall g :: g in Aggregate(layers, s).subTags ==>
              exists i :: 0 <= i < |snap.subTags| && snap.subTags[i].key == g
    ensures SumCounts(snap.contributors) == MapTotal(Aggregate(layers, s).contributors)
    ensures SumCounts(snap.subTags) == MapTotal(Aggregate(layers, s).subTags)
    ensures snap.sampled <==> exists i :: 0 <= i < |layers| && SampledMode(layers[i])
    ensures snap.featureCount as real - 0.5 <= Aggregate(layers, s).featureCount < snap.featureCount as real + 0.5
  {
    var highlighted := HighlightAll(layers, s);
    var tally := Aggregate(layers, s);
    var contributors := Rank(tally.contributors);
    var subTags := Rank(tally.subTags);
    var featureCount := Round(tally.featureCount);
    var numbers := DisplayNumbers(layers, s, featureCount);
    var contributorsLabel := CountLabel(|contributors|, tally.sampled);
    var subTagsLabel := CountLabel(|subTags|, tally.sampled);
    snap := Snapshot(highlighted, contributors, |contributors|, subTags, |subTags|, tally.sampled,
                     featureCount, numbers, contributorsLabel, subTagsLabel);
  }
}
