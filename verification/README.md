# Range cleaning of the weaning-study patient-stay table

This project models the two column-cleaning passes of `common.py` in Dafny and
proves what they guarantee about every row of the table.

- `remove_outliers` converts `amount` to other units (divides by 1000). It nulls
  physiologically implausible values. It applies one cross-column rule: a
  `tidal_volume_set` below 200 nulls `imputed_TV_standardized`. It also caps
  `pao2fio2ratio` at 600.
- `remove_extremes` clamps the standardized columns to fixed bounds.

Every statement of both passes reads only the current row. So a pass is a pure
function from a row to a row, and the table is a sequence of rows mapped
pointwise.

A row (`Frame.Row`) has three parts:

- the current columns, as a `Measures` record;
- the `last_` columns, as a second `Measures` record;
- every other column by name, which the passes never touch.

Every rule applies in the same way to a metric and its `last_` counterpart, so
each pass is written once per half (`Outliers.OutliersOf`,
`Extremes.ClampExtremes`). The one asymmetry in the source is a parameter: the
`spo2` floor.

A cell (`Cells.Cell`) is `Option<real>`, and `None` stands for NaN. Every
comparison with NaN is false, so a rule never fires on a null. `np.minimum`,
`np.maximum` and `/1000` map a null to a null.

`np.log` is a parameter of the pass: `ln: Positive -> real`, the logarithm on its
domain. No property of it is assumed. The log statement is modelled on every
input:

- for a positive value, the rule tests `ln(x)`;
- a zero is nulled, since `log 0 = -inf < 1`;
- a negative value is kept, since its log is NaN.

Inside the pass, the `<= 0` rule (`common.py` line 55, and line 77 for
`last_peak_insp_pressure`) has already run. So the value reaching the log rule
is always null or positive.

The `peep_set` statement `np.maximum(np.minimum(x, -1), 4)` sends every
non-null value to 4; the nesting suggests a clamp to `[-1, 4]` was meant. The
model follows the code as written and records the slip under Findings.

## Model

| member | source | states |
|---|---|---|
| Cells.NullWhere | common.py:51 | the target cell becomes null exactly when the key holds a value satisfying the comparison; a null key never fires, and a kept cell is unchanged |
| Cells.NullWhereTwice | common.py:61-62 | repeating a nulling statement has no effect, so the duplicated cross-column statement changes nothing |
| Cells.Minimum | common.py:72 | `np.minimum` keeps nulls null, keeps values at most the cap, and sends larger values to the cap |
| Cells.Maximum | common.py:117 | `np.maximum` keeps nulls null, keeps values at least the floor, and sends smaller values to the floor |
| Cells.Per1000 | common.py:48-49 | dividing by 1000 keeps nulls null, and the result times 1000 is the input |
| Cells.Clamp | common.py:99 | `minimum(maximum(v, lo), hi)` is null exactly when `v` is null; otherwise it lies in `[lo, hi]`, keeps in-range values and moves others to the nearer end |
| Outliers.NullWhereLogOutside | common.py:67-68 | a positive value survives exactly when `1 <= ln(x) <= 4`; a zero is nulled (log is -inf); a negative value is kept (log is NaN) |
| Outliers.OutliersOf | common.py:48-72 | `amount` is divided by 1000; each screened column keeps exactly its plausible values (e.g. driving pressure `> 0`, meanbp `<= 200`, plateau `<= 45`, peak pressure `> 0` with `1 <= ln <= 4`); a tidal volume below 200 nulls the imputed standardized volume; otherwise that column keeps exactly the values in `[2,12]`; `pao2fio2ratio` is capped at 600 and never nulled; other columns unchanged |
| Outliers.RemoveOutliers | common.py:46-93 | after the pass both halves of the row are plausible, no null gains a value, and the unnamed and unscreened columns are unchanged |
| Outliers.OutliersFixedPoint | common.py:51-72 | the pass changes nothing but `amount` if and only if the half-row is already plausible |
| Outliers.OutliersTwice | common.py:48-72 | a second run only divides `amount` by 1000 again: every nulling and capping rule is idempotent |
| Outliers.OutliersNotIdempotent | common.py:48-49 | with a non-zero `amount`, running the pass twice differs from running it once |
| Outliers.RemoveOutliersTwice | common.py:46-93 | on a whole row, the second run equals the first followed by a second division of both `amount` columns |
| Outliers.RemoveOutliersTable | common.py:46-93 | the pass over a table keeps its length, cleans every row on its own, and every resulting row is plausible with no value revived |
| Extremes.PeepSet | common.py:147-148 | as written, every non-null `peep_set` becomes exactly 4; the intended rule clamps to `[-1, 4]` |
| Extremes.ClampExtremes | common.py:96-148 | each named column is capped, floored or clamped to its bound and keeps in-range values (e.g. sysbp, meanbp, tempc in `[-4,4]`; heartrate and inspiratory time in `[-3,4]`; rate_std `<= 10`; diasbp `<= 5`; tidal volume `<= 650`; imputed TV `>= 4`); `peep_set` becomes 4 as written and is clamped to `[-1, 4]` under the intended rule; nulls stay null; the columns the pass does not name are unchanged |
| Extremes.RemoveExtremes | common.py:95-148 | as written, both halves end inside their bounds, with `spo2` floored at -4 but `last_spo2` at 4; no null gains a value; unnamed columns are unchanged |
| Extremes.RemoveExtremesCorrected | common.py:95-148 | with the two slips corrected, both `peep_set` columns are clamped to `[-1, 4]` and `last_spo2` is floored at -4 |
| Extremes.ExtremesFixedPoint | common.py:96-148 | the pass leaves a half-row unchanged if and only if every clamped column is already within its bounds |
| Extremes.ExtremesIdempotent | common.py:96-148 | clamping a half-row twice equals clamping it once |
| Extremes.RemoveExtremesIdempotent | common.py:95-148 | `remove_extremes` is idempotent on whole rows, as written and corrected |
| Extremes.PeepAsWrittenDiscardsReading | common.py:147-148 | any `peep_set` in `[-1, 4)` is changed by the statement as written but kept by the intended clamp |
| Extremes.LastSpo2FloorAsymmetry | common.py:117-118 | any value in `[-4, 4)` is kept as `spo2` but raised to 4 as `last_spo2`; the corrected pass keeps it in both columns |
| Extremes.RemoveExtremesTable | common.py:95-148 | the pass over a table keeps its length, clamps every row on its own, and every resulting row is within bounds |
| Pipeline.Clean | common.py:46-148 | with the passes composed directly, after both each half has tidal volume in `[200,650]`, imputed TV in `[4,12]`, mean airway pressure in `(0,4]`, inspiratory time in `(0,1.5]`, driving pressure in `(0,30]`, meanbp in `[-4,4]`; no null gains a value |
| Pipeline.HalfRanges | common.py:46-148 | one half of a row after both passes lies in those combined ranges |
| Pipeline.LowTidalVolumeStaysNull | common.py:61-63 | a row whose input tidal volume was below 200 has a null imputed standardized volume after both passes |
| Pipeline.CleanTable | common.py:46-148 | both passes over a table, as a loop over its rows, give each row its own cleaning and leave every row in the combined ranges |

## Left out

- `group_by_stay` (`common.py` lines 28-33) only wraps pandas `groupby` and has no logic of its own.
- `create_calibration_curve` (`common.py` lines 35-44) calls into the classifier, into scikit-learn's `calibration_curve` and into matplotlib plotting and file output. All of these are foreign calls and I/O.
- `ALL_WEANING_PREDICTORS` (`common.py` lines 10-26) is a constant list of names with no behaviour.
- IEEE-754 rounding and infinities are not modelled. Values are `real`, and `/1000` is exact real division.
- `np.log` is a parameter, not a definition. The results hold for any function on the positive reals.
- pandas mutates the table in place. Here each pass returns a new row.
- A missing column raises `KeyError` in pandas. Here every named column is part of the row type, so that failure cannot occur.
- Line 62 repeats line 61 in the current half only. The model runs the statement once, and `Cells.NullWhereTwice` shows the repeat has no effect.
- Pipeline.Clean: composes the two passes directly, with no standardization in between; `common.py` has no caller that fixes this order. `remove_outliers` screens raw units (`meanbp > 200` mmHg) while `remove_extremes` clamps z-score-sized bounds, so a raw `meanbp` of 80 comes out as 4. The combined ranges mean something only for the columns that stay in raw units in both passes: tidal volume, imputed standardized tidal volume, driving pressure and `amount`. The same holds for `Pipeline.HalfRanges` and `Pipeline.CleanTable`.
- Integer-typed columns are not modelled. pandas converts them to float when it writes NaN; every cell here is already a nullable real.

## Findings

| source | as written | input that shows it | evidently intended | confidence | as-written member | corrected member |
|---|---|---|---|---|---|---|
| common.py:147-148 | `np.maximum(np.minimum(x, -1), 4)` sends every non-null `peep_set` and `last_peep_set` to 4 | `peep_set = 0` becomes 4 | `np.minimum(np.maximum(x, -1), 4)`, a clamp to `[-1, 4]` | high; not executed | Extremes.PeepAsWrittenDiscardsReading | Extremes.RemoveExtremesCorrected |
| common.py:117-118 | `last_spo2` is floored at 4, while `spo2` is floored at -4 | any `last_spo2` in `[-4, 4)`, e.g. 0, becomes 4 while the same `spo2` is kept | both floored at -4 | medium; not executed | Extremes.LastSpo2FloorAsymmetry | Extremes.RemoveExtremesCorrected |

`Extremes.RemoveExtremes` and `Pipeline.Clean` model the code as written.
`Extremes.RemoveExtremesCorrected` is the corrected pass, with its bounds and idempotence proved.
