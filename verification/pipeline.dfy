/** The two passes composed directly: `remove_extremes` applied to the output
    of `remove_outliers`, with no standardization in between. The combined
    ranges are meaningful only for the columns that keep the same units in
    both passes (tidal volume, imputed standardized tidal volume, driving
    pressure); for the others they show how the two sets of bounds meet. */
module Pipeline {
  import opened Cells
  import opened Frame
  import opened Outliers
  import opened Extremes

  /** Both passes on one row. After them each half lies in the combined
      ranges, and the unnamed columns are untouched. */
  function Clean(ln: Log, row: Row): (r: Row)
    ensures CleanRow(row, r)
  {
    var o := RemoveOutliers(ln, row);
    var r := RemoveExtremes(o);
    HalfRanges(ln, -4.0, row.current);
    HalfRanges(ln, 4.0, row.last);
    NoNewValuesTransitive(row.current, o.current, r.current);
    NoNewValuesTransitive(row.last, o.last, r.last);
    r
  }

  /** One half of a row after both passes lies in the combined ranges. */
  lemma HalfRanges(ln: Log, spo2Floor: real, m: Measures)
    ensures CleanRanges(ClampExtremes(spo2Floor, AsWritten, OutliersOf(ln, m)))
  {
    var o := OutliersOf(ln, m);
    var c := ClampExtremes(spo2Floor, AsWritten, o);
    assert Accepts(o.tidalVolumeSet, TidalVolumeOk);
    assert Accepts(o.imputedTvStandardized, ImputedTvOk);
    assert Accepts(o.meanAirwayPressure, MeanAirwayPressureOk);
    assert Accepts(o.inspiratoryTime, InspiratoryTimeOk);
    assert Accepts(o.drivingPressure, DrivingPressureOk);
  }

  /** The ranges a column holds after both passes: the outlier domain
      intersected with the extremes bounds, on one half of a row. */
  predicate CleanRanges(m: Measures)
  {
    && Within(m.tidalVolumeSet, 200.0, 650.0)
    && Within(m.imputedTvStandardized, 4.0, 12.0)
    && (m.meanAirwayPressure.Some? ==> 0.0 < m.meanAirwayPressure.value <= 4.0)
    && (m.inspiratoryTime.Some? ==> 0.0 < m.inspiratoryTime.value <= 1.5)
    && (m.drivingPressure.Some? ==> 0.0 < m.drivingPressure.value <= 30.0)
    && Within(m.meanbp, -4.0, 4.0)
  }

  /** `after` is a cleaned version of `before`: both halves in the combined
      ranges, no value revived, the unnamed columns untouched. */
  predicate CleanRow(before: Row, after: Row)
  {
    CleanRanges(after.current) && CleanRanges(after.last) && NullsKept(before, after)
  }

  /** A tidal volume below 200 still leaves its imputed standardized volume
      null after both passes. */
  lemma LowTidalVolumeStaysNull(ln: Log, row: Row)
    ensures row.current.tidalVolumeSet.Some? && row.current.tidalVolumeSet.value < 200.0 ==>
              Clean(ln, row).current.imputedTvStandardized.None?
    ensures row.last.tidalVolumeSet.Some? && row.last.tidalVolumeSet.value < 200.0 ==>
              Clean(ln, row).last.imputedTvStandardized.None?
  {
  }

  /** Both passes over a table, row by row, as a loop over the rows. */
  method CleanTable(ln: Log, t: Table) returns (r: Table)
    ensures |r| == |t|
    ensures forall i :: 0 <= i < |t| ==> r[i] == Clean(ln, t[i])
    ensures forall i :: 0 <= i < |r| ==> CleanRow(t[i], r[i])
  {
    r := [];
    var k := 0;
    while k < |t|
      invariant 0 <= k <= |t|
      invariant |r| == k
      invariant forall i :: 0 <= i < k ==> r[i] == Clean(ln, t[i])
      invariant forall i :: 0 <= i < k ==> CleanRow(t[i], r[i])
    {
      var c := Clean(ln, t[k]);
      assert CleanRow(t[k], c);
      r := r + [c];
      k := k + 1;
    }
  }
}
