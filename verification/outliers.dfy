/** `remove_outliers`: rescales `amount` and nulls physiologically implausible
    values, column by column, in the order the statements run. */
module Outliers {
  import opened Cells
  import opened Frame

  type Positive = x: real | x > 0.0 witness 1.0

  /** The natural logarithm (`np.log`) on its domain. It is a parameter of the
      pass: the model relies on no property of it, so every result holds for
      whatever logarithm the platform computes. */
  type Log = Positive -> real

  // The plausible value domain of each column the pass screens: a value
  // outside its domain is nulled. These are stated from the thresholds alone,
  // independently of the order in which the statements run.

  predicate DrivingPressureOk(x: real) { x > 0.0 }
  predicate MeanbpOk(x: real) { x <= 200.0 }
  predicate RrSetOk(x: real) { x > 0.0 }
  predicate PeakInspPressureOk(ln: Log, x: real) { x > 0.0 && 1.0 <= ln(x) <= 4.0 }
  predicate MeanAirwayPressureOk(x: real) { 0.0 < x <= 50.0 }
  predicate InspiratoryTimeOk(x: real) { 0.0 < x <= 1.5 }
  predicate Aado2Ok(x: real) { x > 0.0 }
  predicate ImputedTvOk(x: real) { 2.0 <= x <= 12.0 }
  predicate TidalVolumeOk(x: real) { x >= 200.0 }
  predicate PlateauPressureOk(x: real) { x <= 45.0 }

  /** A half-row every nulling and capping rule of the pass would leave alone:
      each screened column is null or plausible, and `pao2fio2ratio` is null
      or at most 600. */
  ghost predicate Plausible(ln: Log, m: Measures)
  {
    && Accepts(m.drivingPressure, DrivingPressureOk)
    && Accepts(m.meanbp, MeanbpOk)
    && Accepts(m.rrSetSet, RrSetOk)
    && Accepts(m.peakInspPressure, x => PeakInspPressureOk(ln, x))
    && Accepts(m.meanAirwayPressure, MeanAirwayPressureOk)
    && Accepts(m.inspiratoryTime, InspiratoryTimeOk)
    && Accepts(m.aado2Calc, Aado2Ok)
    && Accepts(m.imputedTvStandardized, ImputedTvOk)
    && Accepts(m.tidalVolumeSet, TidalVolumeOk)
    && Accepts(m.plateauPressure, PlateauPressureOk)
    && AtMostCell(m.pao2fio2Ratio, 600.0)
  }

  /** The columns the pass does not name are equal in `a` and `b`. */
  predicate SameUnscreened(a: Measures, b: Measures)
  {
    && b.rateStd == a.rateStd
    && b.sysbp == a.sysbp
    && b.diasbp == a.diasbp
    && b.resprate == a.resprate
    && b.tempc == a.tempc
    && b.heartrate == a.heartrate
    && b.spo2 == a.spo2
    && b.po2 == a.po2
    && b.pco2 == a.pco2
    && b.ph == a.ph
    && b.peepSet == a.peepSet
  }

  /** The statement `df.loc[(np.log(v) > 4) | (np.log(v) < 1), v] = np.nan` on
      one cell. numpy gives `-inf` for the logarithm of zero, which is below 1,
      so a zero is nulled; it gives NaN for a negative value, which satisfies
      neither comparison, so a negative value is kept. */
  function NullWhereLogOutside(ln: Log, v: Cell): (r: Cell)
    ensures r.Some? ==> r == v
    ensures v.Some? && v.value > 0.0 ==> (r.Some? <==> 1.0 <= ln(v.value) <= 4.0)
    ensures v.Some? && v.value == 0.0 ==> r.None?
    ensures v.Some? && v.value < 0.0 ==> r == v
  {
    match v
    case None => None
    case Some(x) =>
      if x > 0.0 then (if ln(x) > 4.0 || ln(x) < 1.0 then None else v)
      else if x == 0.0 then None
      else v
  }

  /** The pass on one half of a row, statement by statement in source order.
      The contract characterises each column by its plausible domain alone. */
  function OutliersOf(ln: Log, m: Measures): (r: Measures)
    // `amount` is always divided by 1000, null or not
    ensures r.amount.Some? <==> m.amount.Some?
    ensures r.amount.Some? ==> r.amount.value * 1000.0 == m.amount.value
    // single-column nulling rules
    ensures Screened(m.drivingPressure, r.drivingPressure, DrivingPressureOk)
    ensures Screened(m.meanbp, r.meanbp, MeanbpOk)
    ensures Screened(m.rrSetSet, r.rrSetSet, RrSetOk)
    ensures Screened(m.peakInspPressure, r.peakInspPressure, x => PeakInspPressureOk(ln, x))
    ensures Screened(m.meanAirwayPressure, r.meanAirwayPressure, MeanAirwayPressureOk)
    ensures Screened(m.inspiratoryTime, r.inspiratoryTime, InspiratoryTimeOk)
    ensures Screened(m.aado2Calc, r.aado2Calc, Aado2Ok)
    ensures Screened(m.tidalVolumeSet, r.tidalVolumeSet, TidalVolumeOk)
    ensures Screened(m.plateauPressure, r.plateauPressure, PlateauPressureOk)
    // the cross-column rule reads `tidal_volume_set` before it is nulled
    ensures m.tidalVolumeSet.Some? && m.tidalVolumeSet.value < 200.0 ==> r.imputedTvStandardized.None?
    ensures !(m.tidalVolumeSet.Some? && m.tidalVolumeSet.value < 200.0) ==>
              Screened(m.imputedTvStandardized, r.imputedTvStandardized, ImputedTvOk)
    // `pao2fio2ratio` is capped, never nulled
    ensures CappedAt(m.pao2fio2Ratio, r.pao2fio2Ratio, 600.0)
    ensures SameUnscreened(m, r)
  {
    var amount := Per1000(m.amount);                                              // :48-49
    var drivingPressure := NullWhere(m.drivingPressure, AtMost(0.0), m.drivingPressure); // :51
    var meanbp := NullWhere(m.meanbp, Above(200.0), m.meanbp);                    // :53
    var rrSetSet := NullWhere(m.rrSetSet, AtMost(0.0), m.rrSetSet);               // :54
    var peak1 := NullWhere(m.peakInspPressure, AtMost(0.0), m.peakInspPressure); // :55
    var airway1 := NullWhere(m.meanAirwayPressure, AtMost(0.0), m.meanAirwayPressure); // :56
    var insp1 := NullWhere(m.inspiratoryTime, AtMost(0.0), m.inspiratoryTime);   // :57
    var aado2 := NullWhere(m.aado2Calc, AtMost(0.0), m.aado2Calc);               // :58
    var tv1 := NullWhere(m.imputedTvStandardized, Below(2.0), m.imputedTvStandardized); // :59
    var tv2 := NullWhere(tv1, Above(12.0), tv1);                                  // :60
    var tv3 := NullWhere(m.tidalVolumeSet, Below(200.0), tv2);                    // :61-62
    var tidal := NullWhere(m.tidalVolumeSet, Below(200.0), m.tidalVolumeSet);     // :63
    var plateau := NullWhere(m.plateauPressure, Above(45.0), m.plateauPressure); // :65
    var peak2 := NullWhereLogOutside(ln, peak1);                                  // :67-68
    var airway2 := NullWhere(airway1, Above(50.0), airway1);                      // :70
    var insp2 := NullWhere(insp1, Above(1.5), insp1);                             // :71
    var ratio := Minimum(m.pao2fio2Ratio, 600.0);                                 // :72
    m.(amount := amount, drivingPressure := drivingPressure, meanbp := meanbp,
       rrSetSet := rrSetSet, peakInspPressure := peak2, meanAirwayPressure := airway2,
       inspiratoryTime := insp2, aado2Calc := aado2, imputedTvStandardized := tv3,
       tidalVolumeSet := tidal, plateauPressure := plateau, pao2fio2Ratio := ratio)
  }

  /** `remove_outliers` on one row: the same rules on the current and the
      `last_` columns. */
  function RemoveOutliers(ln: Log, row: Row): (r: Row)
    ensures Plausible(ln, r.current) && Plausible(ln, r.last)
    ensures SameUnscreened(row.current, r.current) && SameUnscreened(row.last, r.last)
    ensures NullsKept(row, r)
  {
    Row(OutliersOf(ln, row.current), OutliersOf(ln, row.last), row.others)
  }

  /** `m` with only its `amount` divided by 1000: what the pass does to a
      half-row that is already plausible. */
  function RescaledOnly(m: Measures): Measures
  {
    m.(amount := Per1000(m.amount))
  }

  /** The pass changes nothing but `amount` exactly when the half-row is
      already plausible: the nulling and capping rules are a projection onto
      the plausible domain. */
  lemma OutliersFixedPoint(ln: Log, m: Measures)
    ensures OutliersOf(ln, m) == RescaledOnly(m) <==> Plausible(ln, m)
  {
  }

  /** Running the pass a second time only divides `amount` by 1000 again: every
      nulling and capping rule is idempotent. */
  lemma OutliersTwice(ln: Log, m: Measures)
    ensures OutliersOf(ln, OutliersOf(ln, m)) == RescaledOnly(OutliersOf(ln, m))
  {
  }

  /** The pass is not idempotent: a non-zero `amount` is divided by 1000 on
      every run. */
  lemma OutliersNotIdempotent(ln: Log, m: Measures)
    requires m.amount.Some? && m.amount.value != 0.0
    ensures OutliersOf(ln, OutliersOf(ln, m)) != OutliersOf(ln, m)
  {
  }

  /** Row-level: applying `remove_outliers` twice equals applying it once and
      then dividing both `amount` columns by 1000 again. */
  lemma RemoveOutliersTwice(ln: Log, row: Row)
    ensures var once := RemoveOutliers(ln, row);
            RemoveOutliers(ln, once) == Row(RescaledOnly(once.current), RescaledOnly(once.last), once.others)
  {
    OutliersTwice(ln, row.current);
    OutliersTwice(ln, row.last);
  }

  /** The pass over a whole table, row by row. */
  function RemoveOutliersTable(ln: Log, t: Table): (r: Table)
    ensures |r| == |t|
    ensures forall i :: 0 <= i < |t| ==> r[i] == RemoveOutliers(ln, t[i])
    ensures forall i :: 0 <= i < |r| ==> Plausible(ln, r[i].current) && Plausible(ln, r[i].last)
    ensures forall i :: 0 <= i < |r| ==> NullsKept(t[i], r[i])
  {
    if t == [] then [] else [RemoveOutliers(ln, t[0])] + RemoveOutliersTable(ln, t[1..])
  }
}
