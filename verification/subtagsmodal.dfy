/**
 The sub-tags leaderboard modal: how many rows it shows, when it offers
 "show more", how `expand` and a props update move `howMany`, and the
 percentage printed beside each sub-tag.
 */
module SubTagsModal {
  import opened Ranking
  import opened Format
  import opened Arith

  /** Rows shown when the modal opens, and rows added by each "show more". */
  const InitialHowMany: nat := 10

  /** The modal's own state. */
  datatype ModalState = ModalState(howMany: nat)

  /** The state a fresh modal starts in. */
  const Fresh: ModalState := ModalState(InitialHowMany)

  /** The number of rows in view, printed in the "Top N Tags" header. */
  function HeaderCount<K>(subTags: seq<Entry<K>>, howMany: nat): (r: nat)
    ensures r <= |subTags| && r <= howMany
    ensures r == |subTags| || r == howMany
  {
    Min(howMany, |subTags|)
  }

  /** `subTags.slice(0, howMany)`: the rows in view. */
  function Shown<K>(subTags: seq<Entry<K>>, howMany: nat): (r: seq<Entry<K>>)
    ensures |r| == HeaderCount(subTags, howMany)
    ensures forall i :: 0 <= i < |r| ==> r[i] == subTags[i]
  {
    subTags[..HeaderCount(subTags, howMany)]
  }

  /** The "show more" button is rendered when more sub-tags exist than `howMany`. */
  predicate ShowMore<K>(subTags: seq<Entry<K>>, howMany: nat)
  {
    |subTags| > howMany
  }

  /** "Show more" is offered exactly when some sub-tag is not in view. */
  lemma ShowMoreIffHidden<K>(subTags: seq<Entry<K>>, howMany: nat)
    ensures ShowMore(subTags, howMany) <==> Shown(subTags, howMany) != subTags
  {
    if !ShowMore(subTags, howMany) {
      assert subTags[..|subTags|] == subTags;
    }
  }

  /** `expand`: ten more rows. */
  function Expand(m: ModalState): (r: ModalState)
    ensures r.howMany == m.howMany + InitialHowMany
  {
    ModalState(m.howMany + InitialHowMany)
  }

  /** `componentWillReceiveProps`: an open modal goes back to ten rows; a closed one is left alone. */
  function ReceiveProps(m: ModalState, isOpen: bool): (r: ModalState)
    ensures isOpen ==> r == Fresh
    ensures !isOpen ==> r == m
  {
    if !isOpen then m else Fresh
  }

  /** The state after `k` clicks on "show more". */
  function ExpandTimes(m: ModalState, k: nat): ModalState
  {
    if k == 0 then m else Expand(ExpandTimes(m, k - 1))
  }

  /** Each click adds exactly ten rows. */
  lemma {:induction false} ExpandTimesAddsTen(m: ModalState, k: nat)
    ensures ExpandTimes(m, k).howMany == m.howMany + InitialHowMany * k
  {
    if k > 0 {
      ExpandTimesAddsTen(m, k - 1);
    }
  }

  /** Expanding never hides a row: the old view is a prefix of the new one. */
  lemma ExpandKeepsShown<K>(subTags: seq<Entry<K>>, m: ModalState)
    ensures |Shown(subTags, m.howMany)| <= |Shown(subTags, Expand(m).howMany)|
    ensures Shown(subTags, m.howMany) == Shown(subTags, Expand(m).howMany)[..|Shown(subTags, m.howMany)|]
  {
  }

  /** From a fresh modal, `|subTags| / 10` clicks bring every sub-tag into view and remove the button. */
  lemma EnoughClicksShowAll<K>(subTags: seq<Entry<K>>)
    ensures !ShowMore(subTags, ExpandTimes(Fresh, |subTags| / InitialHowMany).howMany)
    ensures Shown(subTags, ExpandTimes(Fresh, |subTags| / InitialHowMany).howMany) == subTags
  {
    var k := |subTags| / InitialHowMany;
    ExpandTimesAddsTen(Fresh, k);
    ShowMoreIffHidden(subTags, ExpandTimes(Fresh, k).howMany);
  }

  /** The percentage cell: a whole percentage, or `<1` when that rounds to zero. */
  datatype Percentage = Percent(value: int) | LessThanOne

  /**
   `Math.round(count / total * 100) || '<1'`. With `total == 0` the quotient
   is NaN, which rounds to NaN and is falsy, so the cell reads `<1`.
   */
  function PercentageOf(count: nat, total: nat): (r: Percentage)
    requires count <= total
    ensures r.LessThanOne? <==> total == 0 || 200 * count < total
    ensures r.Percent? ==> 1 <= r.value <= 100
    ensures r.Percent? ==> (r.value as real - 0.5) * (total as real) <= 100.0 * (count as real) < (r.value as real + 0.5) * (total as real)
  {
    if total == 0 then LessThanOne
    else
      var x := count as real / total as real * 100.0;
      var p := Round(x);
      PercentBounds(count, total);
      if p == 0 then LessThanOne else Percent(p)
  }

  /** The arithmetic behind `PercentageOf`: where the rounded share lands. */
  lemma PercentBounds(count: nat, total: nat)
    requires count <= total && total > 0
    ensures var p := Round(count as real / total as real * 100.0);
      && 0 <= p <= 100
      && (p == 0 <==> 200 * count < total)
      && (p as real - 0.5) * (total as real) <= 100.0 * (count as real) < (p as real + 0.5) * (total as real)
  {
    var t := total as real;
    var c := count as real;
    var x := c / t * 100.0;
    assert x * t == 100.0 * c by {
      assert (c / t) * t == c;
    }
    ShareBounds(x, t, c, Round(x));
  }

  /** Rounding `x`, where `x * t == 100 * c`, lands in `[0, 100]`, and on 0 exactly when `200 * c < t`. */
  lemma ShareBounds(x: real, t: real, c: real, p: int)
    requires t > 0.0 && 0.0 <= c <= t
    requires x * t == 100.0 * c
    requires p as real - 0.5 <= x < p as real + 0.5
    ensures 0 <= p <= 100
    ensures p == 0 <==> 200.0 * c < t
    ensures (p as real - 0.5) * t <= 100.0 * c < (p as real + 0.5) * t
  {
    ShareInRange(x, t, c);
    ShareBelowHalf(x, t, c);
    ShareBetween(x, t, c, p as real - 0.5, p as real + 0.5);
  }

  /** `x * t == 100 * c` with `0 <= c <= t` puts `x` in `[0, 100]`. */
  lemma ShareInRange(x: real, t: real, c: real)
    requires t > 0.0 && 0.0 <= c <= t
    requires x * t == 100.0 * c
    ensures 0.0 <= x <= 100.0
  {
    if x < 0.0 {
      ScaleStrict(x, 0.0, t);
    }
    if x > 100.0 {
      ScaleStrict(100.0, x, t);
    }
  }

  /** `x` is below one half exactly when `200 * c < t`. */
  lemma ShareBelowHalf(x: real, t: real, c: real)
    requires t > 0.0
    requires x * t == 100.0 * c
    ensures x < 0.5 <==> 200.0 * c < t
  {
    if x < 0.5 {
      ScaleStrict(x, 0.5, t);
    } else {
      ScaleWeak(0.5, x, t);
    }
  }

  /** Bounds on `x` carry over to `100 * c` once scaled by `t`. */
  lemma ShareBetween(x: real, t: real, c: real, lo: real, hi: real)
    requires t > 0.0
    requires x * t == 100.0 * c
    requires lo <= x < hi
    ensures lo * t <= 100.0 * c < hi * t
  {
    ScaleBetween(lo, x, hi, t);
  }

  /** Scaling `lo <= x < hi` by a positive `t`. */
  lemma ScaleBetween(lo: real, x: real, hi: real, t: real)
    requires lo <= x < hi && t > 0.0
    ensures lo * t <= x * t < hi * t
  {
    ScaleWeak(lo, x, t);
    ScaleStrict(x, hi, t);
  }

  /** Each sub-tag's count is part of the modal's total. */
  lemma {:induction false} EntryWithinTotal<K>(subTags: seq<Entry<K>>, i: int)
    requires 0 <= i < |subTags|
    ensures subTags[i].count <= SumCounts(subTags)
  {
    if i > 0 {
      EntryWithinTotal(subTags[1..], i - 1);
    }
  }

  /** One rendered row: the sub-tag value and its percentage cell. */
  datatype Row<K> = Row(subTag: K, percentage: Percentage)

  /** What the modal renders. */
  datatype View<K> = View(header: nat, rows: seq<Row<K>>, showMore: bool)

  /** The rows of the entries in view, each with its share of `total`. */
  function Rows<K>(shown: seq<Entry<K>>, total: nat): (r: seq<Row<K>>)
    requires forall i :: 0 <= i < |shown| ==> shown[i].count <= total
    ensures |r| == |shown|
    ensures forall i :: 0 <= i < |r| ==> r[i] == Row(shown[i].key, PercentageOf(shown[i].count, total))
  {
    if shown == [] then []
    else [Row(shown[0].key, PercentageOf(shown[0].count, total))] + Rows(shown[1..], total)
  }

  /**
   `render`: `total` is the sum of all counts (not only of the rows in view);
   the header, the rows and the button follow `howMany`.
   */
  function Render<K>(subTags: seq<Entry<K>>, m: ModalState): (v: View<K>)
    ensures v.header == |v.rows| == HeaderCount(subTags, m.howMany)
    ensures forall i :: 0 <= i < |v.rows| ==>
              subTags[i].count <= SumCounts(subTags) &&
              v.rows[i] == Row(subTags[i].key, PercentageOf(subTags[i].count, SumCounts(subTags)))
    ensures v.showMore <==> |v.rows| < |subTags|
  {
    var total := SumCounts(subTags);
    var shown := Shown(subTags, m.howMany);
    assert forall i :: 0 <= i < |shown| ==> shown[i].count <= total by {
      forall i | 0 <= i < |shown|
        ensures shown[i].count <= total
      {
        EntryWithinTotal(subTags, i);
      }
    }
    View(HeaderCount(subTags, m.howMany), Rows(shown, total), ShowMore(subTags, m.howMany))
  }
}
