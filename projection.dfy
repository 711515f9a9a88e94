/**
 * The productivity projector: the figures of the side-by-side comparison
 * of the user's current bucket and the recommended one, and the scenario
 * of a 10% better cycle time for the recommended bucket.
 */
module Projection {
  import opened Wrappers
  import opened Tables
  import opened Selection

  /** kg in a ton: truck payloads are entered in tons, and tonnages are reported in tons. */
  const KgPerTon: real := 1000.0
  const MinutesPerHour: real := 60.0
  /** Share of each hour the machine is loading trucks. */
  const LoadingEfficiency: real := 0.75
  /** The nominal number of swings in a day behind the daily figures (not the user's swing rate). */
  const SwingsPerDay: real := 1000.0
  /** The factor of the improved-cycle-time scenario. */
  const ImprovedCycleFactor: real := 1.1

  /** The truck payload in kg. */
  function TruckPayloadKg(tons: real): (kg: real)
    ensures kg / KgPerTon == tons
    ensures kg == 0.0 <==> tons == 0.0
  {
    tons * KgPerTon
  }

  /**
   * Trucks filled per hour at 75% efficiency. A positive fill time gives a
   * positive rate whose trucks take 45 loading minutes per hour; any other
   * fill time gives 0.
   */
  function AvgTrucksPerHour(timeToFill: real): (trucks: real)
    ensures timeToFill > 0.0 ==> trucks > 0.0 && trucks * timeToFill == MinutesPerHour * LoadingEfficiency
    ensures timeToFill <= 0.0 ==> trucks == 0.0
  {
    if timeToFill > 0.0 then (MinutesPerHour / timeToFill) * LoadingEfficiency else 0.0
  }

  /** The figures of one bucket (one column of the comparison). */
  datatype Side = Side(
    capacity: real,
    payload: real,
    totalLoad: real,
    swingsToFill: real,
    timeToFill: real,
    trucksPerHour: real,
    swingsPerHour: real,
    totalSwingsPerHour: real,
    totalTonnagePerHour: real,
    tonnagePerHour: real,
    m3PerDay: real,
    tonnagePerDay: real,
    trucksPerDay: real)

  /** The divisions behind a column's figures have non-zero divisors. */
  predicate SideDefined(capacity: real, density: real, truckKg: real, swingsPerMinute: real)
  {
    CalculateBucketLoad(capacity, density) != 0.0 && truckKg != 0.0 && swingsPerMinute != 0.0
  }

  /** The figures of a bucket of `capacity` m3 whose total suspended load is `totalLoad`. */
  function SideFigures(capacity: real, totalLoad: real, density: real, truckKg: real, swingsPerMinute: real): (s: Side)
    requires SideDefined(capacity, density, truckKg, swingsPerMinute)
    ensures s.capacity == capacity && s.totalLoad == totalLoad
    ensures s.payload == CalculateBucketLoad(capacity, density)
    ensures s.swingsToFill * s.payload == truckKg
    ensures s.timeToFill * swingsPerMinute == s.swingsToFill
    ensures s.trucksPerHour == AvgTrucksPerHour(s.timeToFill)
    ensures s.swingsPerHour == s.swingsToFill * s.trucksPerHour
    ensures s.totalSwingsPerHour == MinutesPerHour * swingsPerMinute
    ensures s.totalTonnagePerHour * KgPerTon == s.totalSwingsPerHour * s.payload
    ensures s.tonnagePerHour * KgPerTon == s.trucksPerHour * truckKg
    ensures s.m3PerDay == SwingsPerDay * capacity
    ensures s.tonnagePerDay * KgPerTon == s.m3PerDay * density
    ensures s.trucksPerDay * truckKg == s.tonnagePerDay * KgPerTon
  {
    var payload := CalculateBucketLoad(capacity, density);
    var swingsToFill := truckKg / payload;
    var timeToFill := swingsToFill / swingsPerMinute;
    var trucksPerHour := AvgTrucksPerHour(timeToFill);
    var totalSwingsPerHour := MinutesPerHour * swingsPerMinute;
    var m3PerDay := SwingsPerDay * capacity;
    var tonnagePerDay := m3PerDay * density / KgPerTon;
    Side(
      capacity,
      payload,
      totalLoad,
      swingsToFill,
      timeToFill,
      trucksPerHour,
      swingsToFill * trucksPerHour,
      totalSwingsPerHour,
      totalSwingsPerHour * capacity * density / KgPerTon,
      trucksPerHour * truckKg / KgPerTon,
      m3PerDay,
      tonnagePerDay,
      tonnagePerDay / truckKg * KgPerTon)
  }

  /**
   * When trucks are being filled (positive fill time), the swings and the
   * tonnage counted through trucks are 75% of what the raw swing rate gives.
   */
  lemma TruckCountedRatesAreDerated(capacity: real, totalLoad: real, density: real, truckKg: real, swingsPerMinute: real)
    requires SideDefined(capacity, density, truckKg, swingsPerMinute)
    requires SideFigures(capacity, totalLoad, density, truckKg, swingsPerMinute).timeToFill > 0.0
    ensures var s := SideFigures(capacity, totalLoad, density, truckKg, swingsPerMinute);
            && s.swingsPerHour == LoadingEfficiency * s.totalSwingsPerHour
            && s.tonnagePerHour == LoadingEfficiency * s.totalTonnagePerHour
  {
    var s := SideFigures(capacity, totalLoad, density, truckKg, swingsPerMinute);
    var t, w, p := s.timeToFill, s.swingsToFill, s.payload;
    // t = w / spm and trucks * t = 45, so swings per hour = w * trucks = 45 * spm.
    assert s.trucksPerHour * t == MinutesPerHour * LoadingEfficiency;
    assert w == t * swingsPerMinute;
    assert s.swingsPerHour == s.trucksPerHour * t * swingsPerMinute;
    // trucks * truckKg = trucks * w * p = swings per hour * p.
    assert truckKg == w * p;
    assert s.trucksPerHour * truckKg == s.swingsPerHour * p;
    assert p == capacity * density;
  }

  /** A fill time that is not positive means no trucks, hence no swings or tonnage counted through trucks. */
  lemma NoFillTimeNoTrucks(capacity: real, totalLoad: real, density: real, truckKg: real, swingsPerMinute: real)
    requires SideDefined(capacity, density, truckKg, swingsPerMinute)
    requires SideFigures(capacity, totalLoad, density, truckKg, swingsPerMinute).timeToFill <= 0.0
    ensures var s := SideFigures(capacity, totalLoad, density, truckKg, swingsPerMinute);
            s.trucksPerHour == 0.0 && s.swingsPerHour == 0.0 && s.tonnagePerHour == 0.0
  {
  }

  /**
   * The daily figures rest on the fixed 1000 swings a day: they do not
   * depend on the swing rate, and a day's truck loads carry 1000 bucket payloads.
   */
  lemma DailyFiguresIgnoreSwingRate(capacity: real, totalLoad: real, density: real, truckKg: real, rate1: real, rate2: real)
    requires SideDefined(capacity, density, truckKg, rate1) && SideDefined(capacity, density, truckKg, rate2)
    ensures var s1 := SideFigures(capacity, totalLoad, density, truckKg, rate1);
            var s2 := SideFigures(capacity, totalLoad, density, truckKg, rate2);
            && s1.m3PerDay == s2.m3PerDay == SwingsPerDay * capacity
            && s1.tonnagePerDay == s2.tonnagePerDay
            && s1.trucksPerDay == s2.trucksPerDay
            && s1.trucksPerDay * truckKg == SwingsPerDay * s1.payload
  {
    var s1 := SideFigures(capacity, totalLoad, density, truckKg, rate1);
    assert s1.tonnagePerDay * KgPerTon == SwingsPerDay * s1.payload;
    assert s1.trucksPerDay * truckKg == s1.tonnagePerDay * KgPerTon;
  }

  /** With a positive density and swing rate, a larger bucket moves more material per hour and per day. */
  lemma LargerBucketMovesMore(small: real, large: real, loadS: real, loadL: real, density: real, truckKg: real, swingsPerMinute: real)
    requires 0.0 < small < large && density > 0.0 && swingsPerMinute > 0.0
    requires SideDefined(small, density, truckKg, swingsPerMinute) && SideDefined(large, density, truckKg, swingsPerMinute)
    ensures var s := SideFigures(small, loadS, density, truckKg, swingsPerMinute);
            var l := SideFigures(large, loadL, density, truckKg, swingsPerMinute);
            && s.payload < l.payload
            && s.totalTonnagePerHour < l.totalTonnagePerHour
            && s.tonnagePerDay < l.tonnagePerDay
  {
    var s := SideFigures(small, loadS, density, truckKg, swingsPerMinute);
    var l := SideFigures(large, loadL, density, truckKg, swingsPerMinute);
    LoadOrder(small, large, density);
    ScaledLess(s.totalTonnagePerHour, l.totalTonnagePerHour, s.totalSwingsPerHour, s.payload, l.payload);
    ScaledLess(s.tonnagePerDay, l.tonnagePerDay, density, s.m3PerDay, l.m3PerDay);
  }

  /** With a positive density, a larger bucket holds a heavier load. */
  lemma LoadOrder(small: real, large: real, density: real)
    requires 0.0 < small < large && density > 0.0
    ensures CalculateBucketLoad(small, density) < CalculateBucketLoad(large, density)
  {
    ScaleKeepsOrder(density, small, large);
  }

  /** Two quantities that are a positive factor times `a < b`, over the same ton scale, keep the order. */
  lemma ScaledLess(x: real, y: real, c: real, a: real, b: real)
    requires c > 0.0 && a < b
    requires x * KgPerTon == c * a && y * KgPerTon == c * b
    ensures x < y
  {
    ScaleKeepsOrder(c, a, b);
  }

  /** Multiplying by a positive factor keeps a strict order. */
  lemma ScaleKeepsOrder(c: real, a: real, b: real)
    requires c > 0.0 && a < b
    ensures a * c < b * c && c * a < c * b
  {
  }

  /** The improved-cycle-time figures: the recommended bucket's daily and hourly output, 10% higher. */
  datatype Improved = Improved(totalTonnagePerHour: real, m3PerDay: real, tonnagePerDay: real, trucksPerDay: real)

  /** Each improved figure exceeds the recommended bucket's own by a tenth of it. */
  function ImprovedCycle(s: Side): (i: Improved)
    ensures i.totalTonnagePerHour - s.totalTonnagePerHour == s.totalTonnagePerHour / 10.0
    ensures i.m3PerDay - s.m3PerDay == s.m3PerDay / 10.0
    ensures i.tonnagePerDay - s.tonnagePerDay == s.tonnagePerDay / 10.0
    ensures i.trucksPerDay - s.trucksPerDay == s.trucksPerDay / 10.0
  {
    Improved(
      ImprovedCycleFactor * s.totalTonnagePerHour,
      ImprovedCycleFactor * s.m3PerDay,
      ImprovedCycleFactor * s.tonnagePerDay,
      ImprovedCycleFactor * s.trucksPerDay)
  }

  /** The comparison: the shared inputs, the current bucket, the recommended bucket, the improved scenario. */
  datatype Report = Report(materialDensity: real, truckPayloadKg: real, current: Side, recommended: Side, improved: Improved)

  /** The bucket catalog the request reads: the BHC catalog or the general one. */
  function Catalog(isBhcSelected: bool, general: seq<Bucket>, bhc: seq<Bucket>): (c: seq<Bucket>)
    ensures isBhcSelected ==> c == bhc
    ensures !isBhcSelected ==> c == general
  {
    if isBhcSelected then bhc else general
  }

  /**
   * The divisions of the projection have non-zero divisors: the current
   * bucket's payload (and so the density), the swing rate and the truck payload.
   */
  predicate ProjectionDefined(user: UserData)
  {
    && CalculateBucketLoad(user.currentBucketSize, user.materialDensity) != 0.0
    && user.swingsPerMinute != 0.0
    && user.truckPayloadTons != 0.0
  }

  /** The recommended bucket's payload is non-zero once the current bucket's is: its size is positive. */
  lemma NewPayloadNonZero(user: UserData, size: real)
    requires ProjectionDefined(user) && size > 0.0
    ensures CalculateBucketLoad(size, user.materialDensity) != 0.0
  {
    assert user.materialDensity != 0.0;
  }

  /**
   * The SWL lookup, the bucket selection and, when both succeed, the report;
   * None when either lookup finds nothing.
   */
  function ProcessUserData(table: seq<SwlRow>, general: seq<Bucket>, bhc: seq<Bucket>, user: UserData, isBhcSelected: bool): (r: Option<Report>)
    requires RunSelection(table, Catalog(isBhcSelected, general, bhc), user).Selected? ==> ProjectionDefined(user)
    ensures r.None? <==> !RunSelection(table, Catalog(isBhcSelected, general, bhc), user).Selected?
    ensures r.Some? ==>
              var o := RunSelection(table, Catalog(isBhcSelected, general, bhc), user);
              && r.value.truckPayloadKg == user.truckPayloadTons * KgPerTon
              && r.value.materialDensity == user.materialDensity
              && o.bucket.size > 0.0
              && r.value.current == SideFigures(
                   user.currentBucketSize,
                   CalculateBucketLoad(user.currentBucketSize, user.materialDensity) + user.currentBucketWeight + user.quickHitchWeight,
                   user.materialDensity, TruckPayloadKg(user.truckPayloadTons), user.swingsPerMinute)
              && r.value.recommended == SideFigures(
                   o.bucket.size, o.bucket.totalWeight,
                   user.materialDensity, TruckPayloadKg(user.truckPayloadTons), user.swingsPerMinute)
              && r.value.recommended.totalLoad == o.bucket.totalWeight <= o.swl
              && r.value.improved == ImprovedCycle(r.value.recommended)
  {
    match RunSelection(table, Catalog(isBhcSelected, general, bhc), user)
    case Selected(swl, optimal) =>
      var density := user.materialDensity;
      var truckKg := TruckPayloadKg(user.truckPayloadTons);
      var oldPayload := CalculateBucketLoad(user.currentBucketSize, density);
      var oldTotalLoad := oldPayload + user.currentBucketWeight + user.quickHitchWeight;
      NewPayloadNonZero(user, optimal.size);
      var oldSide := SideFigures(user.currentBucketSize, oldTotalLoad, density, truckKg, user.swingsPerMinute);
      var newSide := SideFigures(optimal.size, optimal.totalWeight, density, truckKg, user.swingsPerMinute);
      Some(Report(density, truckKg, oldSide, newSide, ImprovedCycle(newSide)))
    case _ => None
  }

  /**
   * When the current bucket has the recommended bucket's size and weight,
   * the two columns of the comparison are identical.
   */
  lemma SameBucketSameFigures(table: seq<SwlRow>, general: seq<Bucket>, bhc: seq<Bucket>, user: UserData, isBhcSelected: bool)
    requires ProjectionDefined(user)
    ensures var o := RunSelection(table, Catalog(isBhcSelected, general, bhc), user);
            var r := ProcessUserData(table, general, bhc, user, isBhcSelected);
            o.Selected? && user.currentBucketSize == o.bucket.size && user.currentBucketWeight == o.bucket.weight ==>
              r.Some? && r.value.current == r.value.recommended
  {
  }
}
