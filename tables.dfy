/**
 * The reference tables the calculator reads and the inputs a user submits.
 * Tables are ordered sequences of rows; "the first row" always means the
 * lowest index.
 */
module Tables {
  import opened Wrappers

  /**
   * A numeric cell of the SWL table after it was coerced to a number:
   * an entry that is not a number becomes "no value" (NaN) instead of failing.
   */
  type Cell = Option<real>

  /** Equality of two cells as Python compares floats: NaN equals nothing, not even NaN. */
  predicate CellEq(a: Cell, b: Cell)
  {
    a.Some? && b.Some? && a.value == b.value
  }

  /** One row of the excavator SWL table: a configuration, its class and its safe working load (kg). */
  datatype SwlRow = SwlRow(
    make: string,
    model: string,
    boomLength: Cell,
    armLength: Cell,
    cwt: Cell,
    shoeWidth: Cell,
    reach: Cell,
    excavatorClass: Cell,
    swl: real)

  /** One row of a bucket catalog (general or BHC): capacity in m3, weight in kg, compatibility class. */
  datatype Bucket = Bucket(name: string, size: real, weight: real, bucketClass: real)

  /**
   * Everything the user submits. The configuration cells are picked from the
   * SWL table's own values, so they may be "no value" too; the truck payload
   * is in tons, the rest in the units of the form.
   */
  datatype UserData = UserData(
    make: string,
    model: string,
    boomLength: Cell,
    armLength: Cell,
    cwt: Cell,
    shoeWidth: Cell,
    reach: Cell,
    materialDensity: real,
    quickHitchWeight: real,
    currentBucketSize: real,
    currentBucketWeight: real,
    truckPayloadTons: real,
    swingsPerMinute: real)

  /** The recommended bucket: the catalog row's name, size and weight, and the total load it puts on the machine. */
  datatype OptimalBucket = OptimalBucket(name: string, size: real, weight: real, totalWeight: real)

  /**
   * Filtering a table by a row predicate and taking the first row that is
   * left: the index of the earliest row satisfying `p`, or None if there is none.
   */
  function FirstWhere<T>(s: seq<T>, p: T -> bool): (r: Option<nat>)
    ensures r.None? <==> forall i :: 0 <= i < |s| ==> !p(s[i])
    ensures r.Some? ==> r.value < |s| && p(s[r.value])
    ensures r.Some? ==> forall j :: 0 <= j < r.value ==> !p(s[j])
  {
    if s == [] then None
    else if p(s[0]) then Some(0)
    else
      match FirstWhere(s[1..], p)
      case None =>
        assert forall i :: 1 <= i < |s| ==> s[i] == s[1..][i - 1];
        None
      case Some(k) =>
        assert forall j :: 1 <= j < k + 1 ==> s[j] == s[1..][j - 1];
        Some(k + 1)
  }
}
