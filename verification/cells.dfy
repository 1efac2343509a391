/** Nullable numeric cells and the column primitives the cleaning passes are
    built from.

    A cell is the value of one numeric column in one row. pandas stores a
    missing value as NaN; here it is `None`. NaN follows IEEE-754: every
    comparison with it is false, and `np.minimum`, `np.maximum` and division
    propagate it. Values are mathematical reals, so rounding and infinities
    are not modelled. */
module Cells {

  datatype Option<+T> = None | Some(value: T)

  /** One cell of a numeric column; `None` is NaN. */
  type Cell = Option<real>

  /** A comparison of a column against a constant threshold, as in
      `df[col] <= t`, `df[col] > t` or `df[col] < t`. */
  datatype Cmp = AtMost(t: real) | Above(t: real) | Below(t: real)

  predicate Fires(c: Cmp, x: real)
  {
    match c
    case AtMost(t) => x <= t
    case Above(t) => x > t
    case Below(t) => x < t
  }

  /** The statement `df.loc[<key> <cmp>, <target>] = np.nan` restricted to one
      row: the target cell is nulled exactly when the key cell holds a value
      that satisfies the comparison. A NaN key never satisfies it. */
  function NullWhere(key: Cell, c: Cmp, target: Cell): (r: Cell)
    ensures r.Some? ==> r == target
    ensures r.None? <==> target.None? || (key.Some? && Fires(c, key.value))
    ensures key.None? ==> r == target
  {
    if key.Some? && Fires(c, key.value) then None else target
  }

  /** Running the same nulling statement twice is the same as running it once;
      this is why the repeated statement on `common.py` line 62 has no effect. */
  lemma NullWhereTwice(key: Cell, c: Cmp, target: Cell)
    ensures NullWhere(key, c, NullWhere(key, c, target)) == NullWhere(key, c, target)
  {
  }

  /** `np.minimum(v, hi)` on one cell. */
  function Minimum(v: Cell, hi: real): (r: Cell)
    ensures CappedAt(v, r, hi)
  {
    match v
    case None => None
    case Some(x) => Some(if x <= hi then x else hi)
  }

  /** `np.maximum(v, lo)` on one cell. */
  function Maximum(v: Cell, lo: real): (r: Cell)
    ensures FlooredAt(v, r, lo)
  {
    match v
    case None => None
    case Some(x) => Some(if x >= lo then x else lo)
  }

  /** `v / 1000` on one cell (a unit conversion). */
  function Per1000(v: Cell): (r: Cell)
    ensures r.Some? <==> v.Some?
    ensures r.Some? ==> r.value * 1000.0 == v.value
  {
    match v
    case None => None
    case Some(x) => Some(x / 1000.0)
  }

  /** `v` is null or its value passes `ok`. */
  ghost predicate Accepts(v: Cell, ok: real -> bool)
  {
    v.Some? ==> ok(v.value)
  }

  /** `after` is what a nulling rule with acceptance test `ok` leaves of
      `before`: a null stays null, an accepted value is kept, and a rejected
      value becomes null. */
  ghost predicate Screened(before: Cell, after: Cell, ok: real -> bool)
  {
    match before
    case None => after.None?
    case Some(x) => after == (if ok(x) then before else None)
  }

  /** A null stays null and a value never appears from nowhere. */
  predicate NotRevived(before: Cell, after: Cell)
  {
    before.None? ==> after.None?
  }

  /** `after` is `before` capped at `hi`: nulls stay null, values at most `hi`
      are kept, larger values become exactly `hi`. */
  ghost predicate CappedAt(before: Cell, after: Cell, hi: real)
  {
    && (after.Some? <==> before.Some?)
    && (after.Some? ==> after.value <= hi)
    && (after.Some? && before.value <= hi ==> after == before)
    && (after.Some? && before.value > hi ==> after.value == hi)
  }

  /** `after` is `before` floored at `lo`: nulls stay null, values at least
      `lo` are kept, smaller values become exactly `lo`. */
  ghost predicate FlooredAt(before: Cell, after: Cell, lo: real)
  {
    && (after.Some? <==> before.Some?)
    && (after.Some? ==> after.value >= lo)
    && (after.Some? && before.value >= lo ==> after == before)
    && (after.Some? && before.value < lo ==> after.value == lo)
  }

  /** `after` is `before` clamped to `[lo, hi]`: nulls stay null, values in
      the interval are kept, values outside it move to the nearer end. */
  ghost predicate ClampedTo(before: Cell, after: Cell, lo: real, hi: real)
  {
    && (after.Some? <==> before.Some?)
    && (after.Some? ==> lo <= after.value <= hi)
    && (after.Some? && lo <= before.value <= hi ==> after == before)
    && (after.Some? && before.value < lo ==> after.value == lo)
    && (after.Some? && before.value > hi ==> after.value == hi)
  }

  /** `np.minimum(np.maximum(v, lo), hi)`, the two-sided clamp the source
      writes for standardized columns. */
  function Clamp(v: Cell, lo: real, hi: real): (r: Cell)
    requires lo <= hi
    ensures ClampedTo(v, r, lo, hi)
  {
    Minimum(Maximum(v, lo), hi)
  }

  /** `v` is null or lies in `[lo, hi]`. */
  predicate Within(v: Cell, lo: real, hi: real)
  {
    v.Some? ==> lo <= v.value <= hi
  }

  predicate AtMostCell(v: Cell, hi: real)
  {
    v.Some? ==> v.value <= hi
  }

  predicate AtLeastCell(v: Cell, lo: real)
  {
    v.Some? ==> v.value >= lo
  }
}
