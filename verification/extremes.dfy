/** `remove_extremes`: clamps standardized columns to fixed bounds with
    `np.minimum` and `np.maximum`, leaving nulls null. */
module Extremes {
  import opened Cells
  import opened Frame

  /** How the `peep_set` statement is read. `AsWritten` is the source,
      `np.maximum(np.minimum(v, -1), 4)`, which sends every value to 4;
      `Intended` is the clamp to `[-1, 4]` the nesting evidently meant. */
  datatype PeepRule = AsWritten | Intended

  function PeepSet(rule: PeepRule, v: Cell): (r: Cell)
    ensures rule == AsWritten ==> (r.Some? <==> v.Some?) && (r.Some? ==> r.value == 4.0)
    ensures rule == Intended ==> ClampedTo(v, r, -1.0, 4.0)
  {
    match rule
    case AsWritten => Maximum(Minimum(v, -1.0), 4.0)
    case Intended => Clamp(v, -1.0, 4.0)
  }

  /** What the `peep_set` statement leaves is null or in this range. */
  predicate PeepBounded(rule: PeepRule, v: Cell)
  {
    match rule
    case AsWritten => v.Some? ==> v.value == 4.0
    case Intended => Within(v, -1.0, 4.0)
  }

  /** The columns the pass does not name are equal in `a` and `b`. */
  predicate SameUnclamped(a: Measures, b: Measures)
  {
    && b.rrSetSet == a.rrSetSet
    && b.peakInspPressure == a.peakInspPressure
    && b.aado2Calc == a.aado2Calc
    && b.plateauPressure == a.plateauPressure
    && b.pao2fio2Ratio == a.pao2fio2Ratio
  }

  /** A half-row every clamp of the pass would leave alone: each clamped
      column is null or inside its bounds. */
  predicate Bounded(spo2Floor: real, peep: PeepRule, m: Measures)
  {
    && AtMostCell(m.rateStd, 10.0)
    && Within(m.sysbp, -4.0, 4.0)
    && AtMostCell(m.diasbp, 5.0)
    && Within(m.meanbp, -4.0, 4.0)
    && AtMostCell(m.resprate, 4.0)
    && Within(m.tempc, -4.0, 4.0)
    && Within(m.heartrate, -3.0, 4.0)
    && AtLeastCell(m.spo2, spo2Floor)
    && AtMostCell(m.po2, 5.0)
    && AtMostCell(m.pco2, 5.0)
    && Within(m.inspiratoryTime, -3.0, 4.0)
    && AtLeastCell(m.imputedTvStandardized, 4.0)
    && AtMostCell(m.tidalVolumeSet, 650.0)
    && AtMostCell(m.meanAirwayPressure, 4.0)
    && AtMostCell(m.amount, 10.0)
    && AtMostCell(m.drivingPressure, 30.0)
    && AtLeastCell(m.ph, -4.0)
    && PeepBounded(peep, m.peepSet)
  }

  /** The pass on one half of a row. The floor of `spo2` is a parameter because
      the source floors `spo2` at -4 but `last_spo2` at 4. */
  function ClampExtremes(spo2Floor: real, peep: PeepRule, m: Measures): (r: Measures)
    ensures CappedAt(m.rateStd, r.rateStd, 10.0)
    ensures ClampedTo(m.sysbp, r.sysbp, -4.0, 4.0)
    ensures CappedAt(m.diasbp, r.diasbp, 5.0)
    ensures ClampedTo(m.meanbp, r.meanbp, -4.0, 4.0)
    ensures CappedAt(m.resprate, r.resprate, 4.0)
    ensures ClampedTo(m.tempc, r.tempc, -4.0, 4.0)
    ensures ClampedTo(m.heartrate, r.heartrate, -3.0, 4.0)
    ensures FlooredAt(m.spo2, r.spo2, spo2Floor)
    ensures CappedAt(m.po2, r.po2, 5.0)
    ensures CappedAt(m.pco2, r.pco2, 5.0)
    ensures ClampedTo(m.inspiratoryTime, r.inspiratoryTime, -3.0, 4.0)
    ensures FlooredAt(m.imputedTvStandardized, r.imputedTvStandardized, 4.0)
    ensures CappedAt(m.tidalVolumeSet, r.tidalVolumeSet, 650.0)
    ensures CappedAt(m.meanAirwayPressure, r.meanAirwayPressure, 4.0)
    ensures CappedAt(m.amount, r.amount, 10.0)
    ensures CappedAt(m.drivingPressure, r.drivingPressure, 30.0)
    ensures FlooredAt(m.ph, r.ph, -4.0)
    ensures r.peepSet.Some? <==> m.peepSet.Some?
    ensures PeepBounded(peep, r.peepSet)
    ensures peep == Intended ==> ClampedTo(m.peepSet, r.peepSet, -1.0, 4.0)
    ensures SameUnclamped(m, r)
  {
    m.(rateStd := Minimum(m.rateStd, 10.0),                          // :96-97
       sysbp := Clamp(m.sysbp, -4.0, 4.0),                           // :99-100
       diasbp := Minimum(m.diasbp, 5.0),                             // :102-103
       meanbp := Clamp(m.meanbp, -4.0, 4.0),                         // :105-106
       resprate := Minimum(m.resprate, 4.0),                         // :108-109
       tempc := Clamp(m.tempc, -4.0, 4.0),                           // :111-112
       heartrate := Clamp(m.heartrate, -3.0, 4.0),                   // :114-115
       spo2 := Maximum(m.spo2, spo2Floor),                           // :117-118
       po2 := Minimum(m.po2, 5.0),                                   // :120-121
       pco2 := Minimum(m.pco2, 5.0),                                 // :123-124
       inspiratoryTime := Clamp(m.inspiratoryTime, -3.0, 4.0),       // :126-127
       imputedTvStandardized := Maximum(m.imputedTvStandardized, 4.0), // :129-130
       tidalVolumeSet := Minimum(m.tidalVolumeSet, 650.0),           // :132-133
       meanAirwayPressure := Minimum(m.meanAirwayPressure, 4.0),     // :135-136
       amount := Minimum(m.amount, 10.0),                            // :138-139
       drivingPressure := Minimum(m.drivingPressure, 30.0),          // :141-142
       ph := Maximum(m.ph, -4.0),                                    // :144-145
       peepSet := PeepSet(peep, m.peepSet))                          // :147-148
  }

  /** `remove_extremes` on one row, as written: `spo2` floored at -4,
      `last_spo2` at 4, and both `peep_set` columns sent to 4. */
  function RemoveExtremes(row: Row): (r: Row)
    ensures Bounded(-4.0, AsWritten, r.current) && Bounded(4.0, AsWritten, r.last)
    ensures SameUnclamped(row.current, r.current) && SameUnclamped(row.last, r.last)
    ensures NullsKept(row, r)
  {
    Row(ClampExtremes(-4.0, AsWritten, row.current), ClampExtremes(4.0, AsWritten, row.last), row.others)
  }

  /** `remove_extremes` with the two evident slips corrected: `last_spo2`
      floored at -4 like `spo2`, and `peep_set` clamped to `[-1, 4]`. */
  function RemoveExtremesCorrected(row: Row): (r: Row)
    ensures Bounded(-4.0, Intended, r.current) && Bounded(-4.0, Intended, r.last)
    ensures ClampedTo(row.current.peepSet, r.current.peepSet, -1.0, 4.0)
    ensures ClampedTo(row.last.peepSet, r.last.peepSet, -1.0, 4.0)
    ensures FlooredAt(row.last.spo2, r.last.spo2, -4.0)
    ensures SameUnclamped(row.current, r.current) && SameUnclamped(row.last, r.last)
    ensures NullsKept(row, r)
  {
    Row(ClampExtremes(-4.0, Intended, row.current), ClampExtremes(-4.0, Intended, row.last), row.others)
  }

  /** The pass leaves a half-row unchanged exactly when it is already bounded. */
  lemma ExtremesFixedPoint(spo2Floor: real, peep: PeepRule, m: Measures)
    ensures ClampExtremes(spo2Floor, peep, m) == m <==> Bounded(spo2Floor, peep, m)
  {
  }

  /** Clamping twice is clamping once. */
  lemma ExtremesIdempotent(spo2Floor: real, peep: PeepRule, m: Measures)
    ensures ClampExtremes(spo2Floor, peep, ClampExtremes(spo2Floor, peep, m)) == ClampExtremes(spo2Floor, peep, m)
  {
  }

  /** Row-level: `remove_extremes` is idempotent, as written and corrected. */
  lemma RemoveExtremesIdempotent(row: Row)
    ensures RemoveExtremes(RemoveExtremes(row)) == RemoveExtremes(row)
    ensures RemoveExtremesCorrected(RemoveExtremesCorrected(row)) == RemoveExtremesCorrected(row)
  {
    ExtremesIdempotent(-4.0, AsWritten, row.current);
    ExtremesIdempotent(4.0, AsWritten, row.last);
    ExtremesIdempotent(-4.0, Intended, row.current);
    ExtremesIdempotent(-4.0, Intended, row.last);
  }

  /** As written, the `peep_set` statement discards the reading: any value in
      `[-1, 4)`, which a clamp to `[-1, 4]` would keep, comes out as 4. */
  lemma PeepAsWrittenDiscardsReading(v: Cell)
    requires v.Some? && -1.0 <= v.value <= 4.0 && v.value != 4.0
    ensures PeepSet(AsWritten, v) != v
    ensures PeepSet(Intended, v) == v
  {
  }

  /** As written, any `last_spo2` in `[-4, 4)` (for a standardized column, most
      readings) is raised to 4 while the same `spo2` is kept; the corrected
      pass keeps both. */
  lemma LastSpo2FloorAsymmetry(row: Row, v: real)
    requires -4.0 <= v < 4.0
    requires row.current.spo2 == Some(v) && row.last.spo2 == Some(v)
    ensures RemoveExtremes(row).current.spo2 == Some(v)
    ensures RemoveExtremes(row).last.spo2 == Some(4.0)
    ensures RemoveExtremesCorrected(row).current.spo2 == Some(v)
    ensures RemoveExtremesCorrected(row).last.spo2 == Some(v)
  {
  }

  /** The pass over a whole table, row by row. */
  function RemoveExtremesTable(t: Table): (r: Table)
    ensures |r| == |t|
    ensures forall i :: 0 <= i < |t| ==> r[i] == RemoveExtremes(t[i])
    ensures forall i :: 0 <= i < |r| ==> Bounded(-4.0, AsWritten, r[i].current) && Bounded(4.0, AsWritten, r[i].last)
    ensures forall i :: 0 <= i < |r| ==> NullsKept(t[i], r[i])
  {
    if t == [] then [] else [RemoveExtremes(t[0])] + RemoveExtremesTable(t[1..])
  }
}
