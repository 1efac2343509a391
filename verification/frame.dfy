/** The patient-stay table as the cleaning passes see it.

    Each row is one time bucket of one ICU stay. Every measurement the passes
    clean has a current column `<metric>` and a `last_<metric>` column holding
    the previous bucket's value, and both carry the same cleaning rules. A row
    is therefore two `Measures` records, one for each half, plus the columns
    the passes never name. Every column the passes read is present, so the
    model has no missing-column failure. */
module Frame {
  import opened Cells

  /** The columns of one half of a row that either cleaning pass names. */
  datatype Measures = Measures(
    amount: Cell,
    drivingPressure: Cell,
    meanbp: Cell,
    rrSetSet: Cell,
    peakInspPressure: Cell,
    meanAirwayPressure: Cell,
    inspiratoryTime: Cell,
    aado2Calc: Cell,
    imputedTvStandardized: Cell,
    tidalVolumeSet: Cell,
    plateauPressure: Cell,
    pao2fio2Ratio: Cell,
    rateStd: Cell,
    sysbp: Cell,
    diasbp: Cell,
    resprate: Cell,
    tempc: Cell,
    heartrate: Cell,
    spo2: Cell,
    po2: Cell,
    pco2: Cell,
    ph: Cell,
    peepSet: Cell)

  /** One row: the current columns, the `last_` columns, and every other
      column by name (`stay_id` and the rest), which the passes never touch. */
  datatype Row = Row(current: Measures, last: Measures, others: map<string, Cell>)

  /** A table is its rows in order; both passes act on each row alone. */
  type Table = seq<Row>

  /** No column of `b` holds a value where the same column of `a` was null. */
  predicate NoNewValues(a: Measures, b: Measures)
  {
    && NotRevived(a.amount, b.amount)
    && NotRevived(a.drivingPressure, b.drivingPressure)
    && NotRevived(a.meanbp, b.meanbp)
    && NotRevived(a.rrSetSet, b.rrSetSet)
    && NotRevived(a.peakInspPressure, b.peakInspPressure)
    && NotRevived(a.meanAirwayPressure, b.meanAirwayPressure)
    && NotRevived(a.inspiratoryTime, b.inspiratoryTime)
    && NotRevived(a.aado2Calc, b.aado2Calc)
    && NotRevived(a.imputedTvStandardized, b.imputedTvStandardized)
    && NotRevived(a.tidalVolumeSet, b.tidalVolumeSet)
    && NotRevived(a.plateauPressure, b.plateauPressure)
    && NotRevived(a.pao2fio2Ratio, b.pao2fio2Ratio)
    && NotRevived(a.rateStd, b.rateStd)
    && NotRevived(a.sysbp, b.sysbp)
    && NotRevived(a.diasbp, b.diasbp)
    && NotRevived(a.resprate, b.resprate)
    && NotRevived(a.tempc, b.tempc)
    && NotRevived(a.heartrate, b.heartrate)
    && NotRevived(a.spo2, b.spo2)
    && NotRevived(a.po2, b.po2)
    && NotRevived(a.pco2, b.pco2)
    && NotRevived(a.ph, b.ph)
    && NotRevived(a.peepSet, b.peepSet)
  }

  /** Neither half of the row gains a value, and the unnamed columns are unchanged. */
  predicate NullsKept(a: Row, b: Row)
  {
    NoNewValues(a.current, b.current) && NoNewValues(a.last, b.last) && b.others == a.others
  }

  lemma NoNewValuesTransitive(a: Measures, b: Measures, c: Measures)
    requires NoNewValues(a, b) && NoNewValues(b, c)
    ensures NoNewValues(a, c)
  {
  }
}
