# Bucket sizing and haul productivity: a Dafny model

The calculator helps plan an excavator and dump-truck fleet. The user picks an excavator
configuration (make, model, boom, arm, counterweight, shoe width, reach) and enters a
material density, a quick-hitch weight, their current bucket, a truck payload and a
swing rate. From these the calculator:

1. looks up the safe working load (SWL) of that exact configuration in the SWL table;
2. chooses the largest bucket in the catalog (general or BHC) that the machine can carry
   within its SWL and within its class band;
3. projects the productivity of the current bucket next to the recommended one.

The model has four modules, one file each:

- `Wrappers` (`wrappers.dfy`): `Option`, which stands for Python's `None`.
- `Tables` (`tables.dfy`): the table rows and the user's inputs. A numeric SWL-table cell
  that was coerced to a number is an `Option<real>`, where `None` is NaN. `CellEq` is
  Python's `==` on such cells, so NaN equals nothing. `FirstWhere` is "filter the table,
  take the first row left".
- `Selection` (`selection.dfy`): `find_matching_swl`, the excavator-class lookup, and
  `select_optimal_bucket`. The bucket choice exists in three forms:
  - the imperative loop `SelectOptimalBucket`, which keeps the source's
    `highest_bucket_size` and `optimal_bucket` variables;
  - the function `OptimalBucketFor`, the same scan as a left fold (`ScanPrefix`);
  - the declarative specification `SelectionSpec`: an eligible row of maximal size, the
    earliest such row, or `None` when no row is eligible.

  The loop is proved equal to the fold. The fold is proved to meet the specification, and
  the specification is proved to allow only one answer.
- `Projection` (`projection.dfy`): the numbers computed in `process_user_data`, one
  `Side` record per bucket column plus the improved-cycle-time scenario.

Sizes, weights, densities and rates are `real`. The decisions use only `+`, `*` and
comparisons, so exact reals capture what the float code intends.

Three behaviours of the code are easy to misread:

- A swing rate of 0 does not give 0 trucks per hour. `swings_to_fill / machine_swings_per_minute`
  (Ez6000.py:194-195) divides by the rate before the `time_to_fill > 0` guard runs
  (Ez6000.py:198-199), so Python raises. The model therefore requires a non-zero rate
  whenever a bucket was selected. The guard still yields 0 for a fill time that is
  negative, and `NoFillTimeNoTrucks` states this.
- The daily figures use 1000 swings a day (`1000 * capacity`, Ez6000.py:217-218), even
  though the comment beside them says 1800.
- If the excavator class is NaN, `bucket['class'] > NaN + 10` is false, so the class band
  rejects no bucket. `OutOfClass` models this.

## Model

| member | source | states |
|---|---|---|
| `Tables.FirstWhere` | Ez6000.py:81-92 | Filtering, then taking the first row: the result is None exactly when no row satisfies the filter; otherwise it is the index of a row that satisfies it, and no earlier row does |
| `Selection.FindMatchingSwl` | Ez6000.py:80-93 | None exactly when no row has the user's make, model, CWT, shoe width, reach, boom and arm (a NaN cell never matches); otherwise the swl of the first matching row in table order |
| `Selection.ExcavatorClass` | Ez6000.py:104-105 | The class is that of the first row whose model is the selected model; the other configuration fields play no part |
| `Selection.MatchListsModel` | Ez6000.py:169-173 | After a successful SWL match, some row has the user's model, so the class lookup inside the selection cannot raise |
| `Selection.CalculateBucketLoad` | Ez6000.py:96-97 | The load of a bucket is zero exactly when its size or the density is zero; with a positive density it is positive exactly when the size is positive |
| `Selection.SpecDeterminesSelection` | Ez6000.py:107-121 | The specification of the bucket choice (largest eligible size, earliest row among ties, None when nothing is eligible) allows at most one answer |
| `Selection.ScanMeetsSpec` | Ez6000.py:101-121 | After any prefix of the catalog, the loop's state meets the specification for that prefix, and `highest_bucket_size` is the size of the kept bucket (0 when none is kept) |
| `Selection.StepTakesRow` | Ez6000.py:114-121 | A row within the class band and the SWL whose size exceeds the best so far becomes the optimum of the longer prefix |
| `Selection.StepKeepsBest` | Ez6000.py:108-114 | A row that is out of band, over the SWL, or not strictly larger leaves the previous answer in place, and that answer is still optimal |
| `Selection.OptimalBucketFor` | Ez6000.py:99-123 | The scan's result meets the specification. It is None exactly when no row is within the band and the SWL with a positive size. Otherwise its total weight is quick hitch + calculate_bucket_load(size, density) + bucket weight, is at most the SWL, and its size is positive |
| `Selection.SpecNoneIffNoneEligible` | Ez6000.py:101-123 | Under the specification, no bucket is reported exactly when no catalog row is eligible (this covers the empty catalog and zero-size rows) |
| `Selection.SpecImpliesLimits` | Ez6000.py:111-120 | A reported bucket has total weight quick hitch + load + bucket weight, within the SWL, and a positive size |
| `Selection.SelectedWithinClassBand` | Ez6000.py:108-109 | The chosen row's class is never more than the excavator class + 10 |
| `Selection.HeavierHitchNeverLarger` | Ez6000.py:112-114 | A heavier quick hitch, all else fixed, never makes the chosen size larger, and never turns "no bucket" into a bucket |
| `Selection.SelectOptimalBucket` | Ez6000.py:99-123 | The loop returns exactly the fold's result, and so meets the specification (maximal eligible size, earliest among ties, None when nothing is eligible) |
| `Selection.RunSelection` | Ez6000.py:167-173 | No configuration match gives NoMatchingConfiguration. Otherwise the outcome carries the matched SWL, and it is NoSuitableBucket exactly when no catalog row is eligible under that SWL; Selected carries the optimal bucket |
| `Selection.TwoBucketExample` | Ez6000.py:107-121 | With SWL 20000, class 20, density 1600 and a 300 kg hitch, buckets of 1.0 and 1.5 m3 both fit (2400 and 3400 kg), and the 1.5 m3 bucket of class 25 is chosen |
| `Projection.TruckPayloadKg` | Ez6000.py:181 | The truck payload in kg is the payload in tons times 1000, and is zero only for a zero payload |
| `Projection.AvgTrucksPerHour` | Ez6000.py:198-199 | For a positive fill time, the trucks per hour are positive and, times the fill time, give the 45 loading minutes of a 75%-efficient hour; for any other fill time, the rate is 0 |
| `Projection.SideFigures` | Ez6000.py:176-226 | The column keeps its capacity and total load; the payload is calculate_bucket_load(capacity, density); swings to fill times payload equals the truck payload; fill time times swing rate equals that swing count; trucks per hour is avg_trucks_per_hour of the fill time; swings per hour is swings to fill times trucks per hour; total swings per hour is 60 times the swing rate; hourly tonnage times 1000 is total swings per hour times payload, and truck-counted tonnage times 1000 is trucks per hour times truck payload; daily m3 is 1000 × capacity, daily tonnage times 1000 is daily m3 times density, and daily trucks times truck payload is daily tonnage times 1000 |
| `Projection.TruckCountedRatesAreDerated` | Ez6000.py:198-214 | With a positive fill time, the swings per hour and tonnage per hour counted through trucks are 0.75 of the raw swings per hour and the raw tonnage per hour |
| `Projection.NoFillTimeNoTrucks` | Ez6000.py:198-203 | A fill time that is not positive gives 0 trucks, 0 swings and 0 tonnage per hour through trucks |
| `Projection.DailyFiguresIgnoreSwingRate` | Ez6000.py:217-226 | Daily m3 is 1000 × capacity. The daily m3, tonnage and truck counts do not depend on the swing rate. A day's truck loads times the truck payload equal 1000 bucket payloads |
| `Projection.LoadOrder` | Ez6000.py:96-97 | With a positive density, a larger bucket size gives a strictly larger load |
| `Projection.LargerBucketMovesMore` | Ez6000.py:209-222 | With a positive density and swing rate, a larger capacity gives a larger payload, tonnage per hour and tonnage per day |
| `Projection.ImprovedCycle` | Ez6000.py:257-258 | Each improved figure (hourly tonnage, daily m3, daily tonnage, daily trucks) exceeds the recommended bucket's own by a tenth of it |
| `Projection.Catalog` | Ez6000.py:167 | The catalog searched is the BHC catalog when BHC is selected and the general catalog otherwise; this choice is the whole contract |
| `Projection.NewPayloadNonZero` | Ez6000.py:178-191 | Once the current bucket's payload is non-zero, the recommended bucket's payload (positive size) is non-zero too, so its swing division is defined |
| `Projection.ProcessUserData` | Ez6000.py:166-226 | None exactly when there is no SWL match or no suitable bucket. Otherwise the report has the user's density and the truck payload × 1000; the current column is the full set of figures of the current bucket, whose total load is its payload + bucket weight + quick hitch; the recommended column is the full set of figures of the selected bucket, whose size is positive and whose total weight is within the SWL; the improved figures are those of the recommended column at 1.1 × |
| `Projection.SameBucketSameFigures` | Ez6000.py:176-226 | With non-zero divisors, when a bucket is selected and the current bucket has its size and weight, a report is produced and its two columns of figures are identical |

## Left out

- Streamlit UI (Ez6000.py:43-77, 144-164, 299, 310-319): the cascading select boxes, the unused email field and the messages. The UI tests `if swl:` (Ez6000.py:149), which treats a SWL of 0 as "not found"; `process_user_data` tests `is None` (Ez6000.py:170). The model follows `process_user_data`.
- CSV loading through pandas (Ez6000.py:19-40): this is file I/O.
- Empty CSV cells: `read_csv` gives NaN for an empty cell in any column. The model represents a missing value only in the coerced numeric cells of the SWL table (`Cell`). It does not model NaN in the `make`, `model` or `swl` columns of the SWL table, or in any column of the bucket catalogs. These are plain strings and reals.
- The dump-truck table: it only feeds the cascading truck select boxes, and the model takes the chosen payload (in tons) as an input.
- Report layout and formatting (Ez6000.py:229-294): the `:.1f` strings, the header, blank and '-' cells, and the Difference and % Difference columns. The % Difference cells divide by old values without a guard (Ez6000.py:277-289); this is presentation arithmetic, not decision logic. The model keeps every figure the columns are built from.
- Excel export (Ez6000.py:302-307): this is an I/O library wrapper.
- Float rounding: the model uses exact reals.
- Projection.ProcessUserData: Python raises on a zero divisor at Ez6000.py:190-195 and 225-226. The model does not give a value in these cases. It requires a non-zero current-bucket payload, swing rate and truck payload, but only when a bucket was selected, since the source divides only then.
- Selection.SelectOptimalBucket: the source raises IndexError when no SWL row has the model (Ez6000.py:105). The model requires such a row instead. `process_user_data` always has one (`MatchListsModel`).
