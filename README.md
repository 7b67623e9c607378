# fcl — fixed-income calculations, modelled in Dafny

This project models the computational core of the `fcl` library. fcl is an
R package whose numerical engine is written in Rust. The core has four parts:

- **Calendar arithmetic** (`date_handle.rs`): adding months with end-of-month
  clamping, and a 30/360-like year fraction.
- **Fixed-rate bonds** (`bond.rs`):
  - the coupon frequency;
  - the coupon schedule, generated forward from the value date and optionally
    snapped to the maturity date;
  - the coupon amount;
  - accrued interest by actual days within the coupon period;
  - the dirty price;
  - the projected cash flow, kept as a date-keyed map;
  - the cash flow as seen from a valuation date.
- **Portfolio returns** (`rtn.rs`):
  - a daily series of market values and P&L, densified from sparse
    observations;
  - the daily and cumulative time-weighted return (TWRR);
  - the modified Dietz average capital, cumulative P&L and return.
- **XNPV / XIRR** (`xirr.rs`): validation of a dated cash-flow schedule, its
  net present value, and how the root search's outcome becomes the result.

Files and modules:

| file | module | models |
|---|---|---|
| `wrappers.dfy` | `Wrappers` | `Option`, and `Result` for Rust's `Result` |
| `sums.dfy` | `Sums` | the `sum()` of a sequence of reals |
| `search.dfy` | `Search` | `slice::binary_search` on a strictly increasing sequence |
| `date_handle.dfy` | `DateHandle` | dates, day numbers, `add_months`, `year_frac` |
| `cashflow.dfy` | `Cashflows` | the `Cashflow` map as a date-sorted entry sequence |
| `bond.dfy` | `Bond` | `CpnFreq`, `FixedBond` and its methods, with the unit-test examples |
| `rtn.dfy` | `Rtn` | `Rtn::new` and every return measure |
| `rtn_properties.dfy` | `RtnProperties` | properties that relate the measures (Dietz against TWRR) |
| `xirr.dfy` | `Xirr` | `CheckedCashflowSchedule`, `xnpv`, `calculate_xnpv`, `xirr` |

Representation choices:

- Dates are proleptic-Gregorian `(year, month, day)` triples. `DayNumber`
  counts days in closed form, and `DaysBetween` is chrono's
  `signed_duration_since(..).num_days()`.
- Rust's truncating `/` and `%` on `i32` are written out (`TruncDiv`,
  `TruncRem`), since Dafny's are Euclidean.
- A `BTreeMap<NaiveDate, f64>` is a sequence of entries with strictly
  increasing dates. Inserting keeps it sorted. `Get` is the map lookup.
- `Rtn` is immutable once built, so it is the `Series` datatype. Its
  constructor `New`, and the loops `crs`, `cum_pl`, `twrr_cr` and `dietz`, are
  methods. Each method is proved against a specification function:
  - `Densified` for `New`;
  - `Growth` for `Crs` and `TwrrCr`;
  - `Sum` for `CumPl` and `RunningTotals`;
  - `DietzAvc` and `Ratio` for `Dietz`.
- `cpn_dates`, `cashflow` and `Cashflow::cf` loop in the source, and are
  methods proved equal to `CouponSchedule`, `ScheduledCashflow` and `View`.
- `f64` is modelled as exact `real`.

## Model

| member | source | states |
|---|---|---|
| DateHandle.DaysInMonth | src/rust/src/date_handle.rs:13-18 | the month length that `add_months` obtains as the distance between two first-of-months lies between 28 and 31 |
| DateHandle.MonthLengthFromDayNumbers | src/rust/src/date_handle.rs:13-18 | the day distance from the first of a month to the first of the next month (December rolls into January of the next year) equals that month's length |
| DateHandle.BeforeIffDayNumber | src/rust/src/date_handle.rs:18 | calendar order agrees with day-number order, and equal day numbers mean equal dates |
| DateHandle.AtOrBeforeIffDayNumber | src/rust/src/bond.rs:146 | `<=` on dates agrees with `<=` on day numbers |
| DateHandle.DateKeyInjective | src/rust/src/bond.rs:191 | the search key of a valid date identifies it, so searching keys is searching dates |
| DateHandle.DayNumberMonotone | src/rust/src/bond.rs:185-186 | a strictly later date has a strictly larger day number, so day counts between ordered dates are positive |
| DateHandle.TruncRem | src/rust/src/date_handle.rs:10-11 | Rust's truncating remainder: a = b*q + r with abs(r) < b, and r is non-negative for a non-negative dividend |
| DateHandle.PositiveIndexDefined | src/rust/src/date_handle.rs:9-11 | for a positive month index the truncating division and remainder coincide with Euclidean ones, so the rolled month is in 1..12 and `from_ymd` does not panic |
| DateHandle.AddMonths | src/rust/src/date_handle.rs:8-25 | the result is a valid date `months` months on (year*12+month advances by exactly `months`), and its day is the original day clamped to the target month's length |
| DateHandle.AddZeroMonths | src/rust/src/date_handle.rs:41 | adding zero months gives back the same date |
| DateHandle.AddMonthsIsLater | src/rust/src/date_handle.rs:8-25 | adding a positive number of months gives a strictly later date, never with an earlier year |
| DateHandle.LaterMonthIsLater | src/rust/src/date_handle.rs:9 | a date in a later month (by year*12+month) is strictly later, whatever the days |
| DateHandle.AddMonthsFromEndOfYear | src/rust/src/date_handle.rs:39-46 | from 2020-12-31, adding 0, 1, 2, 11 and 12 months gives 2020-12-31, 2021-01-31, 2021-02-28, 2021-11-30 and 2021-12-31 |
| DateHandle.AddMonthsExample | src/rust/src/date_handle.rs:8-25 | any valid date with the right month index and the clamped day is the result of `add_months` (the result is unique) |
| DateHandle.YearFracSelf | src/rust/src/date_handle.rs:28-33 | the year fraction from a date to itself is 0 |
| DateHandle.YearFracAntisymmetric | src/rust/src/date_handle.rs:28-33 | swapping the two dates negates the year fraction |
| DateHandle.YearFracChain | src/rust/src/date_handle.rs:28-33 | year fractions add up over an intermediate date |
| DateHandle.YearFracOfAddMonths | src/rust/src/date_handle.rs:28-33 | the year fraction across `add_months(d, m)` is m/12 plus the day clamping over 365 |
| Search.BinarySearch | src/rust/src/bond.rs:191 | on a strictly increasing sequence: Found(i) iff x occurs, at i; otherwise NotFound(k) with everything before k smaller and everything from k larger |
| Cashflows.New | src/rust/src/bond.rs:35-38 | the new cash flow is valid, has length 0 and maps no date |
| Cashflows.GetIffKey | src/rust/src/bond.rs:29 | a date is mapped iff it is a key of the map |
| Cashflows.InsertIncreasing | src/rust/src/bond.rs:223 | inserting into the map keeps its keys strictly increasing |
| Cashflows.InsertKeys | src/rust/src/bond.rs:223 | after inserting k the key set is the old key set plus k |
| Cashflows.InsertGet | src/rust/src/bond.rs:223 | after inserting k with v the map gives v at k and is unchanged at every other date (overwrite semantics) |
| Cashflows.InsertAbove | src/rust/src/bond.rs:223 | inserting a key above a bound keeps every key above that bound |
| Cashflows.InsertLast | src/rust/src/bond.rs:223 | inserting a key above all keys appends it |
| Cashflows.Dates | src/rust/src/bond.rs:39-41 | `dates()` has one date per entry, in strictly increasing order, each the key of its entry |
| Cashflows.Values | src/rust/src/bond.rs:42-44 | `values()` has one value per entry, in key order, each the map's value at that key |
| Cashflows.ValuesLookup | src/rust/src/bond.rs:42-44 | every entry's amount is what the map returns for its date |
| Cashflows.GetAt | src/rust/src/bond.rs:29 | in a sorted map the lookup of the i-th key gives the i-th amount |
| Cashflows.AfterIncreasing | src/rust/src/bond.rs:56-60 | the entries strictly after the reference date stay sorted and all lie after it |
| Cashflows.AfterMembers | src/rust/src/bond.rs:56-60 | an entry is kept iff it is in the map and its date is strictly after the reference date |
| Cashflows.GetAfter | src/rust/src/bond.rs:56-60 | at any date strictly after the reference date the view agrees with the map |
| Cashflows.View | src/rust/src/bond.rs:48-62 | the view is a valid map; an empty map gives an empty view; a non-empty map with a price gives a non-empty view |
| Cashflows.ViewShape | src/rust/src/bond.rs:52-60 | the view of a non-empty map is the optional outflow at the reference date followed by the entries after it |
| Cashflows.ViewLookup | src/rust/src/bond.rs:48-62 | the view maps the reference date to minus the price (when given), maps later dates as the original does, and maps nothing else |
| Cashflows.Cf | src/rust/src/bond.rs:48-62 | the loop computes exactly the view |
| Bond.ToCpnFreq | src/rust/src/bond.rs:80-86 | Ok iff the frequency is one of 0, 1, 2, 4, 6, 12; 0 gives Zero, the others Regular(freq); else the error names the frequency |
| Bond.Message | src/rust/src/bond.rs:84 | the error text is `cpn_freq(`, the frequency in decimal, then `) is undefined`; the middle part reads back as the frequency |
| Bond.DigitsRoundTrip | src/rust/src/bond.rs:84 | the digits written for a natural number read back as that number |
| Bond.DecimalRoundTrip | src/rust/src/bond.rs:84 | the decimal text of any integer, sign included, reads back as that integer |
| Bond.InvalidFrequencyMessage | src/rust/src/bond.rs:84 | a frequency of 3 yields "cpn_freq(3) is undefined" |
| Bond.NegativeFrequencyMessage | src/rust/src/bond.rs:84 | a frequency of -1 yields "cpn_freq(-1) is undefined" |
| Bond.NewBond | src/rust/src/bond.rs:89-103 | construction succeeds iff the frequency is accepted, and then keeps every field; the error is the frequency's error |
| Bond.FrequencyThreeRejected | src/rust/src/bond.rs:436-445 | a bond with frequency 3 is rejected |
| Bond.PeriodMonths | src/rust/src/bond.rs:150 | the coupon period `12 / i` is between 1 and 12 months |
| Bond.PeriodMonthsDividesYear | src/rust/src/bond.rs:150 | for every accepted frequency the period divides the year exactly, with no truncation |
| Bond.RawNext | src/rust/src/bond.rs:150 | stepping a regular bond by one period gives a strictly later date |
| Bond.NxtCpnDate | src/rust/src/bond.rs:145-163 | None iff the reference date is at or after maturity; otherwise a strictly later date, which is maturity for a zero-coupon bond and otherwise the date one period on, snapped to maturity when adjusting and it overshoots; with adjust it never passes maturity |
| Bond.ScheduleFrom | src/rust/src/bond.rs:132-140 | every generated date is after the start, in range, before maturity except the last, not past maturity when adjusting; the loop generates something iff the start is before maturity, and the last date is not before maturity |
| Bond.ScheduleFromIncreasing | src/rust/src/bond.rs:132-140 | the generated dates are strictly increasing |
| Bond.CouponSchedule | src/rust/src/bond.rs:129-142 | the schedule starts at the value date; it is just that date when the bond has already matured; otherwise it ends exactly at maturity when adjusted and at or beyond it when not |
| Bond.CouponScheduleIncreasing | src/rust/src/bond.rs:129-142 | the coupon schedule is strictly increasing, which is what the binary search in `accrued` needs |
| Bond.CpnDates | src/rust/src/bond.rs:129-142 | the loop returns exactly the coupon schedule |
| Bond.CpnValue | src/rust/src/bond.rs:164-170 | the coupon is redemption times rate over the frequency, or times the bond's year fraction for a zero-coupon bond |
| Bond.Locate | src/rust/src/bond.rs:191-201 | in a schedule covering the date the search either finds it at some i >= 1, or places it strictly between dates i-1 and i |
| Bond.Prorata | src/rust/src/bond.rs:188 | a full period accrues the full coupon, and a part period accrues between 0 and the coupon |
| Bond.AccrualOnCouponDate | src/rust/src/bond.rs:193-199 | on a coupon date the accrual is 0 with eop and the full coupon without |
| Bond.AccrualBetweenCouponDates | src/rust/src/bond.rs:181-189 | strictly inside period i the accrual is the coupon pro rata of days since coupon i-1 over days in the period, both positive, elapsed less than total |
| Bond.LocateBetween | src/rust/src/bond.rs:200 | a date strictly inside period i is located at insertion point i |
| Bond.AccrualBounds | src/rust/src/bond.rs:181-201 | the accrual is between 0 and the coupon |
| Bond.ScheduleCovers | src/rust/src/bond.rs:174-180 | when the date is after the value date and not after maturity the unadjusted schedule brackets it, so `cpn_dates[i - 1]` and `cpn_dates[i]` are in bounds |
| Bond.Accrued | src/rust/src/bond.rs:173-179 | accrued is 0 after maturity, on or before the value date, and at maturity with eop |
| Bond.AccruedOnCouponDate | src/rust/src/bond.rs:191-199 | on a coupon date within the bond's life accrued is 0 with eop and the coupon without |
| Bond.AccruedBetweenCouponDates | src/rust/src/bond.rs:180-200 | between coupon dates i-1 and i accrued is the coupon scaled by elapsed over period days |
| Bond.AccruedBounds | src/rust/src/bond.rs:173-202 | for a non-negative coupon accrued is between 0 and one coupon |
| Bond.DirtyPrice | src/rust/src/bond.rs:203-205 | the dirty price equals the clean price on or before the value date, after maturity and at maturity |
| Bond.DirtyPriceBounds | src/rust/src/bond.rs:203-205 | the dirty price is the clean price plus at most one coupon |
| Bond.DirtyPriceOnCouponDate | src/rust/src/bond.rs:203-205 | on a coupon date the dirty price is the clean price |
| Bond.CashflowEntries | src/rust/src/bond.rs:209-228 | one entry per paying date, carrying that date |
| Bond.CashflowEntriesAmounts | src/rust/src/bond.rs:212-222 | each entry's amount is the coupon, the redemption or both for its date, as the cash-flow type selects |
| Bond.ScheduledCashflow | src/rust/src/bond.rs:206-230 | the projected cash flow is a valid sorted map |
| Bond.Cashflow | src/rust/src/bond.rs:206-230 | the loop builds exactly the projected cash flow |
| Bond.CashflowStep | src/rust/src/bond.rs:211-224 | one iteration inserts the date's amount at the end, keeps the map sorted, and advances to the next adjusted coupon date |
| Bond.CashflowDates | src/rust/src/bond.rs:206-230 | the cash flow's dates are the adjusted coupon schedule without the value date |
| Bond.CashflowKinds | src/rust/src/bond.rs:212-222 | the three cash-flow types share dates; Redem pays the redemption only at maturity, Coupon pays the unadjusted accrual, All pays their sum |
| Bond.CashflowEmptyIff | src/rust/src/bond.rs:206-230 | the cash flow is empty iff the value date is not before maturity; otherwise its last date is maturity |
| Bond.ValuationCashflow | src/rust/src/bond.rs:231-236 | the cash flow seen by `result` is missing iff the bond's cash flow is empty; otherwise it is the view at the reference date with the dirty price as outflow |
| Bond.ScheduleFromStep | src/rust/src/bond.rs:132-140 | when a next coupon date exists it heads the rest of the schedule |
| Bond.SemiannualSteps | src/rust/src/bond.rs:150 | six months from 2010-01-01 is 2010-07-01, and from 2010-07-01 it is 2011-01-01 |
| Bond.SemiannualCoupon | src/rust/src/bond.rs:279-294 | the semiannual 5% bond on 100 pays 2.5 per coupon |
| Bond.SemiannualSchedule | src/rust/src/bond.rs:279-294 | its schedule opens with 2010-01-01, 2010-07-01 and 2011-01-01 |
| Bond.SemiannualAccrual | src/rust/src/bond.rs:288-294 | on the coupon date 2011-01-01 it accrues 2.5 without eop and has dirty price 100, and on its value date it accrues 0 |
| Bond.TestPeriodDays | src/rust/src/bond.rs:298-359 | the day counts the tests' expected values use: 31, 365, 730, 31 and 184 |
| Bond.AnnualAccrual | src/rust/src/bond.rs:296-298 | the annual bond accrues 31/365 of its 5 coupon on 2010-02-01 |
| Bond.ZeroCouponAccrual | src/rust/src/bond.rs:300-311 | the two-year zero-coupon bond accrues 31/730 of its 10 coupon on 2010-02-01 |
| Bond.ShortBondSchedules | src/rust/src/bond.rs:346-362 | the bond maturing 2010-08-01 pays on 2010-07-01 and on maturity, while its unadjusted schedule continues to 2011-01-01 |
| Bond.ShortBondCoupons | src/rust/src/bond.rs:346-362 | it accrues a full coupon on 2010-07-01 and 31/184 of it on maturity |
| Bond.ShortBondCashflow | src/rust/src/bond.rs:346-362 | its All cash flow is exactly {2010-07-01: 2.5, 2010-08-01: 100 + 5 * 0.5 * 31/184} |
| Rtn.InsertObsSorted | src/rust/src/rtn.rs:19 | inserting an observation keeps the map sorted by date |
| Rtn.InsertObsFind | src/rust/src/rtn.rs:19 | after inserting, the new day finds the new observation and every other day is unchanged |
| Rtn.FindAt | src/rust/src/rtn.rs:30 | in a sorted map the i-th key finds the i-th observation |
| Rtn.KeysIncreasing | src/rust/src/rtn.rs:24 | the collected keys are strictly increasing |
| Rtn.Duplicate | src/rust/src/rtn.rs:16-17 | a day already in the map when it comes up again means the input has a duplicate |
| Rtn.StoreStep | src/rust/src/rtn.rs:15-20 | storing a fresh day keeps the map sorted and holding exactly the observations seen so far |
| Rtn.SearchLatest | src/rust/src/rtn.rs:28-39 | the binary search on the keys finds the latest observation at or before a day: the day itself, or the one before the insertion point, which exists |
| Rtn.FillFound | src/rust/src/rtn.rs:29-33 | an observed day gets its own market value and P&L |
| Rtn.FillNotFound | src/rust/src/rtn.rs:34-38 | an unobserved day gets the latest earlier market value and zero P&L |
| Rtn.FillDays | src/rust/src/rtn.rs:21-40 | the second loop covers every day from the first to the last observed day and fills each of them |
| Rtn.Densify | src/rust/src/rtn.rs:21-41 | the filled series densifies the observations |
| Rtn.New | src/rust/src/rtn.rs:12-42 | Err iff the dates contain a duplicate, with the message "dates contain duplicate"; otherwise a series over every day from the earliest to the latest date, keeping observed values and repeating the last market value with zero P&L on gaps |
| Rtn.HoldsLatest | src/rust/src/rtn.rs:27-39 | in a densified series any day carries the market value of the latest observation not after it, and its P&L only if observed that day |
| Rtn.DensifiedExample | src/rust/src/rtn.rs:203-214 | days [1, 3, 4, 5] with values [100, 102, 103, 104] and P&L [0, 2, 1, 1] densify to days 1..5, values [100, 100, 102, 103, 104] and P&L [0, 0, 2, 1, 1] |
| Rtn.Cf | src/rust/src/rtn.rs:43-58 | the flow is present iff the day has a previous day, and then it is the market value change not explained by P&L |
| Rtn.Dr | src/rust/src/rtn.rs:59-67 | the daily return is present iff the day has a previous day and the capital (previous value plus any inflow) is non-zero; it is P&L over capital, and one plus it is the end value (less any outflow) over capital |
| Rtn.ConsecutiveIncreasing | src/rust/src/rtn.rs:23 | the dense dates are strictly increasing and span first to first + len - 1 |
| Rtn.I | src/rust/src/rtn.rs:84-89 | the index of a day is present iff the day is within the series, and is its offset from the first day |
| Rtn.Dates | src/rust/src/rtn.rs:90-95 | Err (with the message) iff from > to; otherwise the consecutive days from `from` to `to` |
| Rtn.IDates | src/rust/src/rtn.rs:96-103 | the window's indices exist iff both ends are in the series and ordered; each error case holds exactly under its condition, checked from, to, order; the indices are consecutive |
| Rtn.WindowDays | src/rust/src/rtn.rs:96-103 | the k-th window index is the series position of day from + k |
| Rtn.TwrrDr | src/rust/src/rtn.rs:104-108 | the window errors exactly as the indices do; otherwise one daily return per day of the window |
| Rtn.GrowthSnoc | src/rust/src/rtn.rs:68-83 | the growth to position i links the growth before it with the i-th return |
| Rtn.Crs | src/rust/src/rtn.rs:68-83 | the loop gives, at each position, the linked returns up to it less one |
| Rtn.CumulativeFirst | src/rust/src/rtn.rs:71-72 | the first cumulative return is the first daily return |
| Rtn.CumulativeStep | src/rust/src/rtn.rs:73-78 | a later cumulative return is (1 + previous)(1 + daily) - 1, and missing iff either is missing |
| Rtn.GrowthSome | src/rust/src/rtn.rs:74-75 | the linked return is present iff every daily return is |
| Rtn.GrowthMissingStays | src/rust/src/rtn.rs:74-75 | once the cumulative return is missing it remains missing |
| Rtn.TwrrCr | src/rust/src/rtn.rs:109-113 | the window errors as the indices do; otherwise the cumulative return of the window's daily returns to each day |
| Rtn.TwrrFromFirstDay | src/rust/src/rtn.rs:209-212 | a window opening on the first day has no return on it, so every cumulative return is missing |
| Rtn.AnyMissingIff | src/rust/src/rtn.rs:120 | `any(is_none)` holds iff some flow is missing |
| Rtn.WeightedCf | src/rust/src/rtn.rs:114-139 | the weighted flow is present iff every flow up to i is |
| Rtn.WeightEnds | src/rust/src/rtn.rs:133-134 | an inflow on the first day has full weight and an outflow on the last day has zero weight |
| Rtn.WeightBounds | src/rust/src/rtn.rs:133-134 | every weight lies between 0 and 1 |
| Rtn.WeightedCfBounds | src/rust/src/rtn.rs:114-139 | for non-negative flows the weighted flow is between 0 and their plain sum |
| Rtn.WeightedCfZero | src/rust/src/rtn.rs:114-139 | with no flows the weighted flow is 0 |
| Rtn.DietzAvc | src/rust/src/rtn.rs:140-153 | Err iff the window fails or opens on the first day ("can't fetch mv0"), keeping the window's error; otherwise one average capital per day, always present |
| Rtn.RunningTotals | src/rust/src/rtn.rs:163-177 | the loop gives at each k the running total of the first k + 1 values, missing once any is missing |
| Rtn.RunningTotalOfPls | src/rust/src/rtn.rs:156-177 | the running total of the window's P&L is always present and equals the sum of the P&L up to that day |
| Rtn.CumPl | src/rust/src/rtn.rs:154-179 | the window errors as the indices do; otherwise at each day the sum of the series' P&L from the window's start |
| Rtn.Dietz | src/rust/src/rtn.rs:180-195 | errors exactly when the average capital does, and as it does; otherwise per day the cumulative P&L over the average capital, missing when the capital is zero |
| RtnProperties.DayGrowth | src/rust/src/rtn.rs:59-67 | on a day without flows one plus the daily return is today's value over yesterday's |
| RtnProperties.GrowthTelescopes | src/rust/src/rtn.rs:68-83 | when each one-plus-return is a ratio of successive values, the linked growth is the last value over the first |
| RtnProperties.GainsTelescope | src/rust/src/rtn.rs:154-179 | when each P&L is a change of value, the cumulative P&L is the total change |
| RtnProperties.DietzAvcValue | src/rust/src/rtn.rs:140-153 | the average capital is the value before the window plus the weighted flows |
| RtnProperties.DietzAvcNoFlows | src/rust/src/rtn.rs:140-153 | without flows the average capital is the value before the window, as the dietz_ok test expects |
| RtnProperties.DietzAvcInflows | src/rust/src/rtn.rs:114-153 | with only inflows the average capital lies between the opening value and the opening value plus all flows so far |
| RtnProperties.TwrrNoFlows | src/rust/src/rtn.rs:104-113 | without flows the cumulative TWRR is the value's growth over the window, less one |
| RtnProperties.DietzNoFlows | src/rust/src/rtn.rs:180-195 | without flows the Dietz return is the value's growth over the window, less one |
| RtnProperties.DietzMatchesTwrr | src/rust/src/rtn.rs:227-235 | without flows the modified Dietz return equals the cumulative TWRR on every day of the window (the dietz_ok test's two results coincide) |
| RtnProperties.WeightedCfOneDay | src/rust/src/rtn.rs:124-137 | over a one-day window the weighted flow is the day's flow times its own weight, over a total of one day |
| RtnProperties.OneDayAverageCapital | src/rust/src/rtn.rs:140-153 | a one-day window after the first day has one average capital: the previous value plus the day's weighted flow |
| RtnProperties.ZeroBeginSeries | src/rust/src/rtn.rs:259-263 | the `ok_with_zero_begin` observations densify to a series over days -1 to 100 whose first four days are as observed |
| RtnProperties.ZeroBeginReturns | src/rust/src/rtn.rs:264-272 | there the flow of day 1 is 100, and the daily returns of days 0 and 1 are [None, Some(0.1)] (no capital on day 0) |
| RtnProperties.ZeroBeginAverageCapital | src/rust/src/rtn.rs:265-274 | the average capital is [100] for day 1 (an inflow counts from the start of its day) and [110] for day 2 (an outflow from its end) |
| RtnProperties.ZeroBeginDietz | src/rust/src/rtn.rs:267-270 | the Dietz return of day 0 is missing (zero average capital) and that of day 1 is 0.1 |
| RtnProperties.TwrrWorkDaily | src/rust/src/rtn.rs:216-222 | on the densified `twrr_work` series the daily returns from day 2 to 5 are 0, 2/100, 1/102 and 1/103 |
| RtnProperties.TwrrWorkCumulative | src/rust/src/rtn.rs:223-224 | and the cumulative returns are 0, 0.02, 0.03 and 0.04, exactly |
| RtnProperties.DietzOkSeries | src/rust/src/rtn.rs:228-231 | the `dietz_ok` observations densify to days 0 to 7, with days 1 to 4 filled at 100 and zero P&L |
| RtnProperties.DietzOkResults | src/rust/src/rtn.rs:232-235 | from day 4 the average capital is 100 on every day and the Dietz return runs 0, 0.02, 0.03, 0.04 |
| Xirr.AnyBefore | src/rust/src/xirr.rs:23 | `any(d < d0)` holds iff some date is before d0 |
| Xirr.New | src/rust/src/xirr.rs:15-27 | "Values and dates length must match" when the lengths differ; otherwise Err iff a date precedes the first ("First date must be the earliest"); Ok gives back the inputs as a checked schedule |
| Xirr.Terms | src/rust/src/xirr.rs:48-51 | one discounted term per flow |
| Xirr.Xnpv | src/rust/src/xirr.rs:30-36 | Err exactly when validation fails, with its error; otherwise the checked schedule's present value |
| Xirr.XnpvShortcuts | src/rust/src/xirr.rs:38-45 | an empty schedule has present value 0, and at rate 0 it is the plain sum of the values |
| Xirr.ZeroRateXnpv | src/rust/src/xirr.rs:78-94 | for a valid schedule the present value at rate 0 is the sum of the flows, as the xnpv_with_zero_rate test expects |
| Xirr.FirstTermUndiscounted | src/rust/src/xirr.rs:47-51 | the first flow is discounted over a zero year fraction |
| Xirr.ZeroRateShortcut | src/rust/src/xirr.rs:43-52 | when the power of 1 is always 1 the zero-rate shortcut agrees with the general formula |
| Xirr.XnpvScale | src/rust/src/xirr.rs:38-53 | scaling every flow by c scales the present value by c |
| Xirr.YearFracNonNegative | src/rust/src/xirr.rs:51 | the year fraction from the first date to a date not before it is non-negative |
| Xirr.CheckedExponents | src/rust/src/xirr.rs:22-25 | in a checked schedule every discount exponent is non-negative |
| Xirr.XnpvOf | src/rust/src/xirr.rs:61 | the closure is defined at every rate whose base has no zero power, and there it is the schedule's present value at that rate |
| Xirr.Xirr | src/rust/src/xirr.rs:55-68 | a validation error is returned unchanged; otherwise Ok iff the root search finds a root (which is returned), else "could't find irr for the values provided" |
| Xirr.TestScheduleRoot | src/rust/src/xirr.rs:96-106 | -100 now and 105 a year later has present value 0 at 5%, so 5% is the root the xirr test expects |

## Left out

- Floating point: `f64` is exact `real`. Rounding, NaN and infinity are not
  modelled. `FpCategory::Normal` (`dr`, `dietz`) is modelled as "non-zero",
  which ignores subnormals.
- Integer widths: `i32` years, day numbers and `usize` indices are unbounded
  integers, and overflow is not modelled. Dates are not bounded either:
  chrono supports years of about -262,000 to 262,000 only, and `from_ymd`
  also panics outside that range. `ValidDate` does not model this bound.
- Panics are preconditions:
  - `from_ymd` on an invalid date: `AddMonthsDefined`, `ValidDate`;
  - `check_len!` and an empty input to `Rtn::new`: equal lengths and a
    non-empty input;
  - `dates.first().unwrap()` on an empty schedule in `xirr.rs`: non-empty
    when the lengths match;
  - the length panic of `weighted_cf`.
- Bond dates carry `year >= 0` (`InRange`). This is a simplification: from
  year 0 on every month index is positive, so Rust's truncating `/` and `%`
  agree with Euclid's. `add_months` itself panics only when the target month
  index is 0 or below and not congruent to 1 modulo 12 (`AddMonthsDefined`).
  It therefore handles some negative-year dates, such as -0001-12-01 plus 6
  months, which is 0000-06-01. `InRange` also excludes the bonds on such
  dates, for example value date -0001-12-01, maturity 0000-06-01 and
  frequency 2, which `bond.rs` handles.
- `f64::powf` is a function parameter of `Xnpv`, `CalculateXnpv`, `XnpvOf`
  and `Xirr`. `Xnpv` and `CalculateXnpv` require it to have no zero power at
  the base 1 + rate, since a zero power is a division by zero.
- Xirr.XnpvOf: the closure is partial. It is defined only at rates whose base
  has no zero power, so at the rate -1, where `powf(0, t)` is 0, the root
  finder cannot evaluate it. In `xirr.rs` the closure is total there and
  yields an infinite or NaN value.
- `find_root` is a function parameter of `Xirr`, and its third argument
  `1.1`, the starting guess used when `guess` is `None`, is the constant
  `RootParameter`. The search itself belongs to an external module and is
  not part of this model.
- `FixedBond::result` (yield, Macaulay and modified duration) is modelled
  only up to the cash flow it hands to `xirr`, by `ValuationCashflow`. The
  call into the external `financial` crate and the duration formulas are not
  modelled. Neither are the tests that check their rounded values
  (`plain_bond`, `zero_cpn_bond`, `dur`, `none_if_xirr_fail`).
- `Cashflow::xirr_cf`, which converts dates to UTC timestamps, is not
  modelled. The dates and values it returns are what `Cashflows.Dates` and
  `Cashflows.Values` give. `Cashflow::size` is `Cashflows.Len`.
- `FixedBond::years` and `FixedBond::add_months` are the same code as
  `year_frac` and `add_months` in `date_handle.rs`. The model uses one
  definition for both. Months are unsigned in `bond.rs`, and only the
  positive periods 1, 2, 3, 6 and 12 are ever added there.
- Rtn.WeightedCf: requires that the window positions do not decrease up to
  `i`. Otherwise the `usize` subtraction in `rtn.rs` underflows. Every caller
  passes consecutive positions.
- The tests compare returns with `assert_near_eq!`. The model states the exact
  rational values: `TwrrWorkDaily`, `TwrrWorkCumulative`, `DietzOkResults`.
  The `dietz_ok2` test, whose windows run over 50 and 100 days, is not
  restated. Its average capital is `DietzAvcValue` in general.
- lib.rs (the R bindings), rdate.rs (R date conversion), assert.rs
  (`assert_near_eq!`) and check_len.rs (`check_len!`) are glue or tests and
  are not part of this model.
- `result` returns `None` early only when the bond's own cash flow is empty,
  that is when the value date is not before maturity (src/rust/src/bond.rs:233-236). When
  the reference date is past the last cash flow, the view still holds the
  dirty-price outflow, and the failure then comes from `xirr`.
  `ValuationCashflow` models this.
