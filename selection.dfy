/**
 * The selection engine: the SWL lookup for an exact excavator configuration
 * and the choice of the largest catalog bucket the machine can carry.
 */
module Selection {
  import opened Wrappers
  import opened Tables

  // ---------------------------------------------------------------------
  // SWL lookup
  // ---------------------------------------------------------------------

  /** A table row has exactly the user's make, model, counterweight, shoe width, reach, boom and arm. */
  predicate MatchesConfig(row: SwlRow, user: UserData)
  {
    && row.make == user.make
    && row.model == user.model
    && CellEq(row.cwt, user.cwt)
    && CellEq(row.shoeWidth, user.shoeWidth)
    && CellEq(row.reach, user.reach)
    && CellEq(row.boomLength, user.boomLength)
    && CellEq(row.armLength, user.armLength)
  }

  /** Row `k` is the first row of the table that matches the user's configuration. */
  ghost predicate IsFirstMatch(table: seq<SwlRow>, user: UserData, k: int)
  {
    && 0 <= k < |table|
    && MatchesConfig(table[k], user)
    && forall j :: 0 <= j < k ==> !MatchesConfig(table[j], user)
  }

  /**
   * The SWL of the first row matching the configuration, or None when no row
   * matches (a row with no value in a matched cell never matches).
   */
  function FindMatchingSwl(table: seq<SwlRow>, user: UserData): (swl: Option<real>)
    ensures swl.None? <==> forall i :: 0 <= i < |table| ==> !MatchesConfig(table[i], user)
    ensures swl.Some? ==> exists k :: IsFirstMatch(table, user, k) && swl.value == table[k].swl
  {
    match FirstWhere(table, (row: SwlRow) => MatchesConfig(row, user))
    case None => None
    case Some(k) =>
      assert IsFirstMatch(table, user, k);
      Some(table[k].swl)
  }

  /** Some row of the SWL table is for this model. */
  predicate ListsModel(table: seq<SwlRow>, model: string)
  {
    exists i :: 0 <= i < |table| && table[i].model == model
  }

  /**
   * The excavator class: the class of the first row whose model is `model`,
   * whatever that row's boom, arm, counterweight, shoe and reach are.
   */
  function ExcavatorClass(table: seq<SwlRow>, model: string): (c: Cell)
    requires ListsModel(table, model)
    ensures exists k :: 0 <= k < |table| && table[k].model == model && c == table[k].excavatorClass
                        && forall j :: 0 <= j < k ==> table[j].model != model
  {
    match FirstWhere(table, (row: SwlRow) => row.model == model)
    case Some(k) => table[k].excavatorClass
  }

  /** A configuration match is a row for the user's model, so the class lookup after it cannot fail. */
  lemma MatchListsModel(table: seq<SwlRow>, user: UserData)
    requires FindMatchingSwl(table, user).Some?
    ensures ListsModel(table, user.model)
  {
    var k :| IsFirstMatch(table, user, k);
    assert table[k].model == user.model;
  }

  // ---------------------------------------------------------------------
  // Optimal bucket: the rules
  // ---------------------------------------------------------------------

  /** What the bucket choice depends on besides the catalog. */
  datatype Limits = Limits(excavatorClass: Cell, swl: real, density: real, quickHitch: real)

  /** The limits that the selection for this user and this SWL works with. */
  function LimitsFor(table: seq<SwlRow>, user: UserData, swl: real): Limits
    requires ListsModel(table, user.model)
  {
    Limits(ExcavatorClass(table, user.model), swl, user.materialDensity, user.quickHitchWeight)
  }

  /**
   * The material a bucket of `size` m3 holds, in kg: with a positive density
   * it is positive exactly for a positive size, and it is zero only for an
   * empty size or density.
   */
  function CalculateBucketLoad(size: real, density: real): (load: real)
    ensures density > 0.0 ==> (load > 0.0 <==> size > 0.0)
    ensures load == 0.0 <==> size == 0.0 || density == 0.0
  {
    size * density
  }

  /** Quick hitch, loaded material and the bucket itself: the load a bucket puts on the machine. */
  function TotalWeight(b: Bucket, lim: Limits): real
  {
    lim.quickHitch + CalculateBucketLoad(b.size, lim.density) + b.weight
  }

  /**
   * The bucket is rated for a machine more than ten classes heavier. With no
   * class value (NaN) the comparison is false, so nothing is out of class.
   */
  predicate OutOfClass(b: Bucket, excavatorClass: Cell)
  {
    excavatorClass.Some? && b.bucketClass > excavatorClass.value + 10.0
  }

  /**
   * A bucket the selection may choose: within the class band, within the SWL,
   * and larger than the initial best size 0.
   */
  predicate Eligible(b: Bucket, lim: Limits)
  {
    !OutOfClass(b, lim.excavatorClass) && TotalWeight(b, lim) <= lim.swl && b.size > 0.0
  }

  /** The record reported for a chosen catalog row. */
  function Chosen(b: Bucket, lim: Limits): OptimalBucket
  {
    OptimalBucket(b.name, b.size, b.weight, TotalWeight(b, lim))
  }

  /** The size of a selection, 0 when there is none. */
  function SizeOf(r: Option<OptimalBucket>): real
  {
    match r
    case None => 0.0
    case Some(ob) => ob.size
  }

  // ---------------------------------------------------------------------
  // Optimal bucket: the declarative specification
  // ---------------------------------------------------------------------

  /**
   * Among the first `n` rows, row `k` is eligible, no eligible row is larger,
   * and every eligible row before it is strictly smaller (first one wins a tie).
   */
  ghost predicate IsOptimalUpTo(buckets: seq<Bucket>, lim: Limits, n: int, k: int)
  {
    && 0 <= k < n <= |buckets|
    && Eligible(buckets[k], lim)
    && (forall j :: 0 <= j < n && Eligible(buckets[j], lim) ==> buckets[j].size <= buckets[k].size)
    && (forall j :: 0 <= j < k && Eligible(buckets[j], lim) ==> buckets[j].size < buckets[k].size)
  }

  /** `r` is what the selection must report for the first `n` catalog rows. */
  ghost predicate SelectionSpec(buckets: seq<Bucket>, lim: Limits, n: int, r: Option<OptimalBucket>)
  {
    && 0 <= n <= |buckets|
    && match r
       case None => forall j :: 0 <= j < n ==> !Eligible(buckets[j], lim)
       case Some(ob) => exists k :: IsOptimalUpTo(buckets, lim, n, k) && ob == Chosen(buckets[k], lim)
  }

  /** The specification leaves no choice: at most one answer meets it. */
  lemma SpecDeterminesSelection(buckets: seq<Bucket>, lim: Limits, n: int, r1: Option<OptimalBucket>, r2: Option<OptimalBucket>)
    requires SelectionSpec(buckets, lim, n, r1) && SelectionSpec(buckets, lim, n, r2)
    ensures r1 == r2
  {
    if r1.Some? && r2.Some? {
      var k1 :| IsOptimalUpTo(buckets, lim, n, k1) && r1.value == Chosen(buckets[k1], lim);
      var k2 :| IsOptimalUpTo(buckets, lim, n, k2) && r2.value == Chosen(buckets[k2], lim);
    }
  }

  // ---------------------------------------------------------------------
  // Optimal bucket: the scan, as a function
  // ---------------------------------------------------------------------

  /** The loop's two variables: the best size so far and the bucket that has it. */
  datatype ScanState = ScanState(highest: real, optimal: Option<OptimalBucket>)

  /** One iteration of the loop over the catalog. */
  function Step(s: ScanState, b: Bucket, lim: Limits): ScanState
  {
    if OutOfClass(b, lim.excavatorClass) then s
    else if TotalWeight(b, lim) <= lim.swl && b.size > s.highest then ScanState(b.size, Some(Chosen(b, lim)))
    else s
  }

  /** The loop's state after the first `n` catalog rows. */
  function ScanPrefix(buckets: seq<Bucket>, lim: Limits, n: nat): ScanState
    requires n <= |buckets|
  {
    if n == 0 then ScanState(0.0, None)
    else Step(ScanPrefix(buckets, lim, n - 1), buckets[n - 1], lim)
  }

  /** After any prefix, the scan holds the specified answer, and its best size is that answer's size. */
  lemma {:induction false} ScanMeetsSpec(buckets: seq<Bucket>, lim: Limits, n: nat)
    requires n <= |buckets|
    ensures SelectionSpec(buckets, lim, n, ScanPrefix(buckets, lim, n).optimal)
    ensures ScanPrefix(buckets, lim, n).highest == SizeOf(ScanPrefix(buckets, lim, n).optimal)
  {
    if n > 0 {
      ScanMeetsSpec(buckets, lim, n - 1);
      var prev := ScanPrefix(buckets, lim, n - 1);
      var b := buckets[n - 1];
      if Eligible(b, lim) && b.size > prev.highest {
        StepTakesRow(buckets, lim, n);
      } else {
        StepKeepsBest(buckets, lim, n);
      }
    }
  }

  /** The row at `n - 1` beats every earlier eligible row: it becomes the answer for `n` rows. */
  lemma StepTakesRow(buckets: seq<Bucket>, lim: Limits, n: nat)
    requires 0 < n <= |buckets|
    requires SelectionSpec(buckets, lim, n - 1, ScanPrefix(buckets, lim, n - 1).optimal)
    requires ScanPrefix(buckets, lim, n - 1).highest == SizeOf(ScanPrefix(buckets, lim, n - 1).optimal)
    requires Eligible(buckets[n - 1], lim) && buckets[n - 1].size > ScanPrefix(buckets, lim, n - 1).highest
    ensures ScanPrefix(buckets, lim, n) == ScanState(buckets[n - 1].size, Some(Chosen(buckets[n - 1], lim)))
    ensures IsOptimalUpTo(buckets, lim, n, n - 1)
  {
    var prev := ScanPrefix(buckets, lim, n - 1);
    if prev.optimal.Some? {
      var k :| IsOptimalUpTo(buckets, lim, n - 1, k) && prev.optimal.value == Chosen(buckets[k], lim);
    }
  }

  /** The row at `n - 1` is not eligible or not larger: the answer for `n - 1` rows stands. */
  lemma StepKeepsBest(buckets: seq<Bucket>, lim: Limits, n: nat)
    requires 0 < n <= |buckets|
    requires SelectionSpec(buckets, lim, n - 1, ScanPrefix(buckets, lim, n - 1).optimal)
    requires ScanPrefix(buckets, lim, n - 1).highest == SizeOf(ScanPrefix(buckets, lim, n - 1).optimal)
    requires !(Eligible(buckets[n - 1], lim) && buckets[n - 1].size > ScanPrefix(buckets, lim, n - 1).highest)
    ensures ScanPrefix(buckets, lim, n) == ScanPrefix(buckets, lim, n - 1)
    ensures SelectionSpec(buckets, lim, n, ScanPrefix(buckets, lim, n).optimal)
  {
    var prev := ScanPrefix(buckets, lim, n - 1);
    var b := buckets[n - 1];
    if prev.optimal.Some? {
      var k :| IsOptimalUpTo(buckets, lim, n - 1, k) && prev.optimal.value == Chosen(buckets[k], lim);
      assert prev.highest == buckets[k].size > 0.0;
      assert Step(prev, b, lim) == prev;
      assert IsOptimalUpTo(buckets, lim, n, k);
    } else {
      assert prev.highest == 0.0;
      assert Step(prev, b, lim) == prev;
    }
  }

  /**
   * The optimal bucket of a catalog: eligible, of the largest eligible size,
   * the earliest of that size; None exactly when no row is eligible.
   */
  function OptimalBucketFor(buckets: seq<Bucket>, lim: Limits): (r: Option<OptimalBucket>)
    ensures SelectionSpec(buckets, lim, |buckets|, r)
    ensures r.None? <==> forall j :: 0 <= j < |buckets| ==> !Eligible(buckets[j], lim)
    ensures r.Some? ==> r.value.totalWeight == lim.quickHitch + CalculateBucketLoad(r.value.size, lim.density) + r.value.weight
    ensures r.Some? ==> r.value.totalWeight <= lim.swl && r.value.size > 0.0
  {
    var r := ScanPrefix(buckets, lim, |buckets|).optimal;
    ScanMeetsSpec(buckets, lim, |buckets|);
    SpecNoneIffNoneEligible(buckets, lim, r);
    if r.Some? then SpecImpliesLimits(buckets, lim, r); r else r
  }

  /** The specification reports no bucket exactly when no catalog row is eligible. */
  lemma SpecNoneIffNoneEligible(buckets: seq<Bucket>, lim: Limits, r: Option<OptimalBucket>)
    requires SelectionSpec(buckets, lim, |buckets|, r)
    ensures r.None? <==> forall j :: 0 <= j < |buckets| ==> !Eligible(buckets[j], lim)
  {
    if r.Some? {
      var k :| IsOptimalUpTo(buckets, lim, |buckets|, k) && r.value == Chosen(buckets[k], lim);
      assert Eligible(buckets[k], lim);
    }
  }

  /** What the specification says of the reported bucket's weight and size, read off its witness row. */
  lemma SpecImpliesLimits(buckets: seq<Bucket>, lim: Limits, r: Option<OptimalBucket>)
    requires SelectionSpec(buckets, lim, |buckets|, r) && r.Some?
    ensures r.value.totalWeight == lim.quickHitch + CalculateBucketLoad(r.value.size, lim.density) + r.value.weight
    ensures r.value.totalWeight <= lim.swl && r.value.size > 0.0
  {
    var k :| IsOptimalUpTo(buckets, lim, |buckets|, k) && r.value == Chosen(buckets[k], lim);
    assert Eligible(buckets[k], lim);
  }

  /** The chosen row is never rated more than ten classes above the machine. */
  lemma SelectedWithinClassBand(buckets: seq<Bucket>, lim: Limits)
    requires lim.excavatorClass.Some?
    ensures OptimalBucketFor(buckets, lim).Some? ==>
              exists k :: 0 <= k < |buckets| && Chosen(buckets[k], lim) == OptimalBucketFor(buckets, lim).value
                          && buckets[k].bucketClass <= lim.excavatorClass.value + 10.0
  {
    var r := OptimalBucketFor(buckets, lim);
    if r.Some? {
      var k :| IsOptimalUpTo(buckets, lim, |buckets|, k) && r.value == Chosen(buckets[k], lim);
      assert !OutOfClass(buckets[k], lim.excavatorClass);
    }
  }

  /**
   * A heavier quick hitch only tightens the SWL ceiling: the chosen size never
   * grows, and if nothing fitted before, nothing fits now.
   */
  lemma HeavierHitchNeverLarger(buckets: seq<Bucket>, lim: Limits, heavier: real)
    requires lim.quickHitch <= heavier
    ensures SizeOf(OptimalBucketFor(buckets, lim.(quickHitch := heavier))) <= SizeOf(OptimalBucketFor(buckets, lim))
    ensures OptimalBucketFor(buckets, lim).None? ==> OptimalBucketFor(buckets, lim.(quickHitch := heavier)).None?
  {
    var lim2 := lim.(quickHitch := heavier);
    var r1, r2 := OptimalBucketFor(buckets, lim), OptimalBucketFor(buckets, lim2);
    if r2.Some? {
      var k2 :| IsOptimalUpTo(buckets, lim2, |buckets|, k2) && r2.value == Chosen(buckets[k2], lim2);
      assert Eligible(buckets[k2], lim);
      var k1 :| IsOptimalUpTo(buckets, lim, |buckets|, k1) && r1.value == Chosen(buckets[k1], lim);
      assert buckets[k2].size <= buckets[k1].size;
    }
  }

  // ---------------------------------------------------------------------
  // Optimal bucket: the loop
  // ---------------------------------------------------------------------

  /**
   * The catalog scan: skip buckets out of the class band, and keep the first
   * bucket reaching a strictly larger size among those within the SWL.
   */
  method SelectOptimalBucket(table: seq<SwlRow>, user: UserData, buckets: seq<Bucket>, swl: real)
    returns (optimal: Option<OptimalBucket>)
    requires ListsModel(table, user.model)
    ensures optimal == OptimalBucketFor(buckets, LimitsFor(table, user, swl))
  {
    var excavatorClass := ExcavatorClass(table, user.model);
    ghost var lim := LimitsFor(table, user, swl);
    var highest := 0.0;
    optimal := None;
    for i := 0 to |buckets|
      invariant ScanState(highest, optimal) == ScanPrefix(buckets, lim, i)
    {
      var bucket := buckets[i];
      if excavatorClass.Some? && bucket.bucketClass > excavatorClass.value + 10.0 {
        continue;
      }
      var bucketLoad := CalculateBucketLoad(bucket.size, user.materialDensity);
      var totalBucketWeight := user.quickHitchWeight + bucketLoad + bucket.weight;
      if totalBucketWeight <= swl && bucket.size > highest {
        highest := bucket.size;
        optimal := Some(OptimalBucket(bucket.name, highest, bucket.weight, totalBucketWeight));
      }
    }
  }

  // ---------------------------------------------------------------------
  // Lookup followed by selection
  // ---------------------------------------------------------------------

  /** Why a request produced no bucket, or the SWL and the bucket it produced. */
  datatype Outcome =
    | NoMatchingConfiguration
    | NoSuitableBucket(swl: real)
    | Selected(swl: real, bucket: OptimalBucket)

  /**
   * The SWL lookup, then the bucket selection under that SWL (a SWL of 0 is
   * a value like any other here).
   */
  function RunSelection(table: seq<SwlRow>, buckets: seq<Bucket>, user: UserData): (o: Outcome)
    ensures o.NoMatchingConfiguration? <==> FindMatchingSwl(table, user).None?
    ensures !o.NoMatchingConfiguration? ==>
              && ListsModel(table, user.model)
              && Some(o.swl) == FindMatchingSwl(table, user)
              && (o.NoSuitableBucket? <==> forall j :: 0 <= j < |buckets| ==> !Eligible(buckets[j], LimitsFor(table, user, o.swl)))
    ensures o.Selected? ==> Some(o.bucket) == OptimalBucketFor(buckets, LimitsFor(table, user, o.swl))
  {
    match FindMatchingSwl(table, user)
    case None => NoMatchingConfiguration
    case Some(swl) =>
      MatchListsModel(table, user);
      match OptimalBucketFor(buckets, LimitsFor(table, user, swl))
      case None => NoSuitableBucket(swl)
      case Some(b) => Selected(swl, b)
  }

  /**
   * Two catalog rows both within limits: the larger one is chosen, whichever
   * comes first in the catalog.
   */
  lemma TwoBucketExample()
    ensures OptimalBucketFor(
              [Bucket("B1", 1.0, 500.0, 15.0), Bucket("B2", 1.5, 700.0, 25.0)],
              Limits(Some(20.0), 20000.0, 1600.0, 300.0))
            == Some(OptimalBucket("B2", 1.5, 700.0, 3400.0))
  {
    var buckets := [Bucket("B1", 1.0, 500.0, 15.0), Bucket("B2", 1.5, 700.0, 25.0)];
    var lim := Limits(Some(20.0), 20000.0, 1600.0, 300.0);
    assert ScanPrefix(buckets, lim, 1) == ScanState(1.0, Some(OptimalBucket("B1", 1.0, 500.0, 2400.0)));
  }
}
