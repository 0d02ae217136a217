/**
 The features one layer search returns, and the highlight pass that keeps
 those the current selection admits (`highlightedFeatures`).
 */
module Features {
  import opened Selection

  /**
   How a feature records its edit: an exact feature carries a single
   `_timestamp` and `_userExperience`; an aggregated one carries the
   `_timestampMin/Max` and `_userExperienceMin/Max` ranges.
   */
  datatype Observed =
    | Exact(timestamp: int, userExperience: int)
    | Aggregated(timestampMin: int, timestampMax: int, userExperienceMin: int, userExperienceMax: int)

  /**
   One entry of a sampled bin: position `i` of the semicolon-separated
   `_timestamps`, `_userExperiences`, `_uids` and `_tagValues` lists, already
   decoded (so the four lists have the same length by construction).
   */
  datatype Sample = Sample(timestamp: int, userExperience: int, uid: int, tagValue: string)

  /**
   A feature's properties: the tile zoom `tile.z`, how it was observed, the
   editor `_uid`, the sub-tag `_tagValue`, the `_length` (0 when absent),
   and, for a bin of a low-zoom tile, its samples and the number `_count` of
   features the bin stands for.
   */
  datatype Feature = Feature(
    z: int,
    observed: Observed,
    uid: int,
    tagValue: string,
    length: real,
    samples: seq<Sample>,
    count: int)

  /** The features fetched for one active layer (`filter`), under the layer's name. */
  datatype Layer = Layer(name: string, features: seq<Feature>)

  /** The uid a highlighted feature is credited to. */
  function FeatureUid(f: Feature): int
  {
    f.uid
  }

  /** The tag value a highlighted feature is counted under. */
  function FeatureTag(f: Feature): string
  {
    f.tagValue
  }

  /** The uid a matching sample is credited to. */
  function SampleUid(x: Sample): int
  {
    x.uid
  }

  /** The tag value a matching sample is counted under. */
  function SampleTag(x: Sample): string
  {
    x.tagValue
  }

  /**
   The highlight test of one feature. An exact feature goes through
   `applySelection` with its scalars. JavaScript takes the exact branch only
   when `_timestamp` is truthy; a zero timestamp falls into the range branch,
   whose missing bounds compare false, so such a feature then passes only
   when both filters are null.
   */
  function Selected(f: Feature, s: FilterSet): (r: bool)
    ensures s.timeFilter.Unbounded? && s.experienceFilter.Unbounded? ==> r
    ensures f.observed.Exact? && f.observed.timestamp != 0 ==>
              (r <==> ApplySelection(Scalar(f.observed.timestamp), Scalar(f.observed.userExperience), s))
    ensures f.observed.Exact? && f.observed.timestamp == 0 ==>
              (r <==> s.timeFilter.Unbounded? && s.experienceFilter.Unbounded?)
    ensures f.observed.Aggregated? ==>
              (r <==> ApplySelection(Pair(f.observed.timestampMin, f.observed.timestampMax),
                                     Pair(f.observed.userExperienceMin, f.observed.userExperienceMax), s))
  {
    match f.observed
    case Exact(t, e) =>
      if t != 0 then ApplySelection(Scalar(t), Scalar(e), s)
      else s.timeFilter.Unbounded? && s.experienceFilter.Unbounded?
    case Aggregated(tMin, tMax, eMin, eMax) =>
      ApplySelection(Pair(tMin, tMax), Pair(eMin, eMax), s)
  }

  /** The features of `fs` that the selection admits, in their original order. */
  function Highlight(fs: seq<Feature>, s: FilterSet): (r: seq<Feature>)
    ensures |r| <= |fs|
    ensures forall i :: 0 <= i < |r| ==> r[i] in fs && Selected(r[i], s)
    ensures forall i :: 0 <= i < |fs| && Selected(fs[i], s) ==> fs[i] in r
  {
    if fs == [] then []
    else if Selected(fs[0], s) then [fs[0]] + Highlight(fs[1..], s)
    else Highlight(fs[1..], s)
  }

  /**
   The highlight pass distributes over concatenation; together with its value
   on one feature this pins `Highlight` down as the order-preserving filter.
   */
  lemma {:induction false} HighlightAppend(a: seq<Feature>, b: seq<Feature>, s: FilterSet)
    ensures Highlight(a + b, s) == Highlight(a, s) + Highlight(b, s)
  {
    if a == [] {
      assert a + b == b;
    } else {
      var ab := a + b;
      assert ab[0] == a[0];
      assert ab[1..] == a[1..] + b;
      HighlightAppend(a[1..], b, s);
      if Selected(a[0], s) {
        calc {
          Highlight(ab, s);
          [a[0]] + Highlight(a[1..] + b, s);
          [a[0]] + (Highlight(a[1..], s) + Highlight(b, s));
          ([a[0]] + Highlight(a[1..], s)) + Highlight(b, s);
        }
      } else {
        assert Highlight(ab, s) == Highlight(a[1..] + b, s);
      }
    }
  }

  /** On a single feature the pass keeps it exactly when it is selected. */
  lemma HighlightSingleton(f: Feature, s: FilterSet)
    ensures Highlight([f], s) == if Selected(f, s) then [f] else []
  {
    assert [f][1..] == [];
  }

  /** When every feature is selected (for instance both filters null), nothing is dropped. */
  lemma {:induction false} HighlightKeepsAllSelected(fs: seq<Feature>, s: FilterSet)
    requires forall i :: 0 <= i < |fs| ==> Selected(fs[i], s)
    ensures Highlight(fs, s) == fs
  {
    if fs != [] {
      HighlightKeepsAllSelected(fs[1..], s);
    }
  }

  /** Highlighting an already highlighted list changes nothing. */
  lemma {:induction false} HighlightIdempotent(fs: seq<Feature>, s: FilterSet)
    ensures Highlight(Highlight(fs, s), s) == Highlight(fs, s)
  {
    var h := Highlight(fs, s);
    HighlightKeepsAllSelected(h, s);
  }
}
