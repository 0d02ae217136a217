/**
 The time / user-experience selection test (`applySelection` of the Stats
 component). Every exact feature, aggregated feature and bin sample is gated
 by it before it is highlighted or tallied.
 */
module Selection {

  /** One dimension of the store's selection: `null` (no restriction) or a closed window. */
  datatype Filter = Unbounded | Window(lo: int, hi: int)

  /** The store's selection: a time filter and a user-experience filter. */
  datatype FilterSet = FilterSet(timeFilter: Filter, experienceFilter: Filter)

  /** An argument of `applySelection`: a single value or an already formed `[min, max]` pair. */
  datatype Value = Scalar(v: int) | Pair(lo: int, hi: int)

  /** The lower end of a value once a scalar is widened to the degenerate range `[v, v]`. */
  function Lo(x: Value): int
  {
    match x
    case Scalar(v) => v
    case Pair(lo, _) => lo
  }

  /** The upper end of a value once a scalar is widened to the degenerate range `[v, v]`. */
  function Hi(x: Value): int
  {
    match x
    case Scalar(v) => v
    case Pair(_, hi) => hi
  }

  /** A range whose ends are in order. */
  predicate Ordered(x: Value)
  {
    Lo(x) <= Hi(x)
  }

  /** A filter whose window, if any, is in order. */
  predicate WellFormed(f: Filter)
  {
    f.Window? ==> f.lo <= f.hi
  }

  /** The closed-interval test the Stats component applies to one dimension. */
  predicate DimensionPasses(x: Value, f: Filter)
  {
    f.Unbounded? || (Hi(x) >= f.lo && Lo(x) <= f.hi)
  }

  /**
   Independent reading of one dimension's test: the filter is absent, or the
   value's range and the filter's window have a point in common.
   */
  ghost predicate SharesPoint(x: Value, f: Filter)
  {
    f.Unbounded? || exists p: int :: Covers(x, p) && f.lo <= p <= f.hi
  }

  /** The value's range contains the point `p`. */
  predicate Covers(x: Value, p: int)
  {
    Lo(x) <= p <= Hi(x)
  }

  /** For ordered ranges, the endpoint test is exactly "the two intervals share a point". */
  lemma OverlapIsCommonPoint(x: Value, f: Filter)
    ensures Ordered(x) && WellFormed(f) ==> (DimensionPasses(x, f) <==> SharesPoint(x, f))
  {
    if f.Window? && DimensionPasses(x, f) && Ordered(x) && WellFormed(f) {
      var p := if Lo(x) < f.lo then f.lo else Lo(x);
      assert Covers(x, p) && f.lo <= p <= f.hi;
    }
  }

  /**
   `applySelection(timestamp, userExperience, selection)`: both dimensions must
   pass; a null filter always passes; a scalar counts as `[v, v]`.
   */
  function ApplySelection(timestamp: Value, userExperience: Value, s: FilterSet): (r: bool)
    ensures s.timeFilter.Unbounded? && s.experienceFilter.Unbounded? ==> r
    ensures r ==> (s.timeFilter.Window? ==> Hi(timestamp) >= s.timeFilter.lo && Lo(timestamp) <= s.timeFilter.hi)
    ensures r ==> (s.experienceFilter.Window? ==> Hi(userExperience) >= s.experienceFilter.lo && Lo(userExperience) <= s.experienceFilter.hi)
    ensures Ordered(timestamp) && Ordered(userExperience) && WellFormed(s.timeFilter) && WellFormed(s.experienceFilter) ==>
              (r <==> SharesPoint(timestamp, s.timeFilter) && SharesPoint(userExperience, s.experienceFilter))
  {
    OverlapIsCommonPoint(timestamp, s.timeFilter);
    OverlapIsCommonPoint(userExperience, s.experienceFilter);
    DimensionPasses(timestamp, s.timeFilter) && DimensionPasses(userExperience, s.experienceFilter)
  }

  /** With both filters null, every input is selected. */
  lemma NullFiltersSelectEverything(timestamp: Value, userExperience: Value)
    ensures ApplySelection(timestamp, userExperience, FilterSet(Unbounded, Unbounded))
  {
  }

  /** A scalar argument behaves exactly like the degenerate pair `[v, v]`. */
  lemma ScalarIsDegeneratePair(t: int, e: int, s: FilterSet)
    ensures ApplySelection(Scalar(t), Scalar(e), s) == ApplySelection(Pair(t, t), Pair(e, e), s)
  {
  }

  /** For a scalar and a window `[c, d]`, the value passes iff `c <= v <= d`. */
  lemma ScalarPassesIffInside(t: int, e: int, s: FilterSet)
    ensures ApplySelection(Scalar(t), Scalar(e), s) <==>
              (s.timeFilter.Window? ==> s.timeFilter.lo <= t <= s.timeFilter.hi) &&
              (s.experienceFilter.Window? ==> s.experienceFilter.lo <= e <= s.experienceFilter.hi)
  {
  }

  /** The overlap test commutes when the value range and the filter window swap roles. */
  lemma OverlapSymmetric(a: int, b: int, c: int, d: int)
    ensures DimensionPasses(Pair(a, b), Window(c, d)) == DimensionPasses(Pair(c, d), Window(a, b))
  {
  }
}
