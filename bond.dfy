/**
 * The fixed-coupon bond: frequency validation, the coupon schedule as a
 * state machine over dates, the coupon amount, piecewise-linear accrual,
 * the dirty price and the generated date -> amount cashflow.
 */
module Bond {
  import opened Wrappers
  import opened DateHandle
  import opened Search
  import Cashflows

  /** Coupons per year, or a single accrual period ending at maturity. */
  datatype CpnFreq = Regular(perYear: int) | Zero

  datatype BondError = InvalidFrequency(freq: int)

  /** The text of the error `to_cpn_freq` returns, with the frequency in decimal. */
  function Message(e: BondError): (m: string)
    ensures |m| > 23 && m[..9] == "cpn_freq(" && m[|m| - 14..] == ") is undefined"
    ensures ParseDecimal(m[9..|m| - 14]) == Some(e.freq)
  {
    DecimalRoundTrip(e.freq);
    "cpn_freq(" + Decimal(e.freq) + ") is undefined"
  }

  // ---------------------------------------------------------------------------
  // Decimal text of an integer, as `format!("{}", n)` writes an `i32`.

  predicate IsDigit(c: char) {
    '0' <= c <= '9'
  }

  function Digits(n: nat): (s: string)
    ensures |s| > 0 && forall k :: 0 <= k < |s| ==> IsDigit(s[k])
  {
    if n < 10 then [('0' as int + n) as char]
    else Digits(n / 10) + [('0' as int + n % 10) as char]
  }

  /** A leading `-` for negative numbers, then the digits of the magnitude. */
  function Decimal(i: int): string {
    if i < 0 then "-" + Digits(-i) else Digits(i)
  }

  /** The value of a string of digits, most significant first. */
  function DigitsValue(s: string): nat
    requires forall k :: 0 <= k < |s| ==> IsDigit(s[k])
  {
    if s == [] then 0
    else
      assert IsDigit(s[|s| - 1]);
      DigitsValue(s[..|s| - 1]) * 10 + (s[|s| - 1] as int - '0' as int)
  }

  /** The integer an optional `-` and at least one digit denote; None for any other text. */
  function ParseDecimal(s: string): Option<int> {
    if |s| > 0 && s[0] == '-' then
      if |s| > 1 && forall k :: 1 <= k < |s| ==> IsDigit(s[k]) then
        var v: int := DigitsValue(s[1..]); Some(-v)
      else None
    else if |s| > 0 && forall k :: 0 <= k < |s| ==> IsDigit(s[k]) then Some(DigitsValue(s))
    else None
  }

  lemma {:induction false} DigitsRoundTrip(n: nat)
    ensures DigitsValue(Digits(n)) == n
  {
    if n >= 10 {
      DigitsRoundTrip(n / 10);
      var s := Digits(n);
      assert s[..|s| - 1] == Digits(n / 10);
    }
  }

  /** Reading back the decimal text of an integer gives the integer. */
  lemma DecimalRoundTrip(i: int)
    ensures ParseDecimal(Decimal(i)) == Some(i)
  {
    if i < 0 {
      DigitsRoundTrip(-i);
      assert Decimal(i)[1..] == Digits(-i);
    } else {
      DigitsRoundTrip(i);
    }
  }

  /** The message for a frequency of 3. */
  lemma InvalidFrequencyMessage()
    ensures Message(InvalidFrequency(3)) == "cpn_freq(3) is undefined"
  {
  }

  /** The message for a frequency of -1, with its sign. */
  lemma NegativeFrequencyMessage()
    ensures Message(InvalidFrequency(-1)) == "cpn_freq(-1) is undefined"
  {
  }

  datatype BondCfType = Coupon | Redem | All

  /** An immutable bond; value_date < mty_date is not enforced by construction. */
  datatype FixedBond = FixedBond(
    valueDate: Date,
    mtyDate: Date,
    redemValue: real,
    cpnRate: real,
    cpnFreq: CpnFreq)

  /** The only frequencies `to_cpn_freq` ever builds. */
  predicate ValidFreq(f: CpnFreq) {
    f.Zero? || f.perYear in {1, 2, 4, 6, 12}
  }

  /** A date whose month arithmetic never leaves the range where Rust's `/` and `%` agree with Euclid's. */
  predicate InRange(d: Date) {
    ValidDate(d) && d.year >= 0
  }

  predicate ValidBond(b: FixedBond) {
    InRange(b.valueDate) && InRange(b.mtyDate) && ValidFreq(b.cpnFreq)
  }

  function ToCpnFreq(freq: int): (r: Result<CpnFreq, BondError>)
    ensures r.Ok? <==> freq in {0, 1, 2, 4, 6, 12}
    ensures r.Ok? ==> ValidFreq(r.value)
    ensures r.Ok? ==> (r.value == Zero <==> freq == 0)
    ensures r.Ok? && freq != 0 ==> r.value == Regular(freq)
    ensures r.Err? ==> r.error == InvalidFrequency(freq)
  {
    match freq
    case 1 => Ok(Regular(freq))
    case 2 => Ok(Regular(freq))
    case 4 => Ok(Regular(freq))
    case 6 => Ok(Regular(freq))
    case 12 => Ok(Regular(freq))
    case 0 => Ok(Zero)
    case _ => Err(InvalidFrequency(freq))
  }

  /** `FixedBond::new`: fails exactly when the frequency is not one of 0, 1, 2, 4, 6, 12. */
  function NewBond(valueDate: Date, mtyDate: Date, redemValue: real, cpnRate: real, cpnFreq: int)
    : (r: Result<FixedBond, BondError>)
    ensures r.Ok? <==> cpnFreq in {0, 1, 2, 4, 6, 12}
    ensures r.Err? ==> r.error == InvalidFrequency(cpnFreq)
    ensures r.Ok? ==>
              && r.value.valueDate == valueDate && r.value.mtyDate == mtyDate
              && r.value.redemValue == redemValue && r.value.cpnRate == cpnRate
              && ValidFreq(r.value.cpnFreq)
              && (r.value.cpnFreq.Zero? <==> cpnFreq == 0)
  {
    match ToCpnFreq(cpnFreq)
    case Err(e) => Err(e)
    case Ok(f) => Ok(FixedBond(valueDate, mtyDate, redemValue, cpnRate, f))
  }

  /** Frequency 3 is rejected at construction. */
  lemma FrequencyThreeRejected(valueDate: Date, mtyDate: Date)
    ensures NewBond(valueDate, mtyDate, 100.0, 0.05, 3) == Err(InvalidFrequency(3))
  {
  }

  /** The coupon period in months, 12 / n, for each of the five regular frequencies. */
  function PeriodMonths(f: CpnFreq): (m: int)
    requires ValidFreq(f) && f.Regular?
    ensures 1 <= m <= 12
  {
    match f.perYear
    case 1 => 12
    case 2 => 6
    case 4 => 3
    case 6 => 2
    case 12 => 1
  }

  /** The table above is `nxt_cpn_date`'s integer division 12 / i. */
  lemma PeriodMonthsDividesYear(f: CpnFreq)
    requires ValidFreq(f) && f.Regular?
    ensures PeriodMonths(f) == 12 / f.perYear && PeriodMonths(f) * f.perYear == 12
  {
  }

  /** The date rolled by one coupon period, before any snapping to maturity. */
  function RawNext(b: FixedBond, refDate: Date): (r: Date)
    requires ValidFreq(b.cpnFreq) && InRange(refDate)
    ensures b.cpnFreq.Regular? ==> Before(refDate, r) && InRange(r)
  {
    match b.cpnFreq
    case Regular(_) =>
      PositiveIndexDefined(refDate, PeriodMonths(b.cpnFreq));
      AddMonthsIsLater(refDate, PeriodMonths(b.cpnFreq));
      AddMonths(refDate, PeriodMonths(b.cpnFreq))
    case Zero => b.mtyDate
  }

  /**
   * The next coupon date: none once refDate reaches maturity; with adjust, a
   * date past maturity is snapped back to it.
   */
  function NxtCpnDate(b: FixedBond, refDate: Date, adjust: bool): (r: Option<Date>)
    requires ValidFreq(b.cpnFreq) && InRange(refDate)
    ensures r.None? <==> !Before(refDate, b.mtyDate)
    ensures r.Some? ==> Before(refDate, r.value)
    ensures r.Some? && adjust ==> AtOrBefore(r.value, b.mtyDate)
    ensures r.Some? && b.cpnFreq.Zero? ==> r.value == b.mtyDate
    ensures r.Some? && b.cpnFreq.Regular? ==>
              var raw := AddMonths(refDate, PeriodMonths(b.cpnFreq));
              r.value == raw || (adjust && Before(b.mtyDate, raw) && r.value == b.mtyDate)
    ensures r.Some? && InRange(b.mtyDate) ==> InRange(r.value)
  {
    if !Before(refDate, b.mtyDate) then None
    else
      var date := RawNext(b, refDate);
      if Before(b.mtyDate, date) && adjust then Some(b.mtyDate) else Some(date)
  }

  /** Days left to maturity; it shrinks with every coupon step that starts before maturity. */
  function Gap(b: FixedBond, d: Date): nat
    requires 1 <= d.month <= 12 && 1 <= b.mtyDate.month <= 12
  {
    if DayNumber(d) < DayNumber(b.mtyDate) then DayNumber(b.mtyDate) - DayNumber(d) else 0
  }

  predicate IncreasingDates(s: seq<Date>) {
    forall i, j :: 0 <= i < j < |s| ==> Before(s[i], s[j])
  }

  /**
   * What each date after d looks like: in range, after d, before maturity
   * unless it is the last, and not past maturity when adjusting; there are none
   * once d has reached maturity, and the last is not before maturity.
   */
  predicate ScheduleShape(d: Date, s: seq<Date>, mty: Date, adjust: bool) {
    && (forall i :: 0 <= i < |s| ==>
          InRange(s[i]) && Before(d, s[i]) && (adjust ==> AtOrBefore(s[i], mty)) &&
          (i < |s| - 1 ==> Before(s[i], mty)))
    && (|s| > 0 <==> Before(d, mty))
    && (|s| > 0 ==> !Before(s[|s| - 1], mty))
  }

  /** One more coupon step in front of a well-shaped tail keeps the shape. */
  lemma ConsShape(d: Date, next: Date, rest: seq<Date>, mty: Date, adjust: bool)
    requires ScheduleShape(next, rest, mty, adjust)
    requires InRange(next) && Before(d, next) && Before(d, mty) && (adjust ==> AtOrBefore(next, mty))
    requires |rest| > 0 || !Before(next, mty)
    ensures ScheduleShape(d, [next] + rest, mty, adjust)
  {
    var s := [next] + rest;
    forall i | 1 <= i < |s| ensures s[i] == rest[i - 1] {
    }
  }

  /** The coupon dates after d, generated by repeated `nxt_cpn_date`. */
  function ScheduleFrom(b: FixedBond, d: Date, adjust: bool): (s: seq<Date>)
    requires ValidBond(b) && InRange(d)
    ensures ScheduleShape(d, s, b.mtyDate, adjust)
    decreases Gap(b, d)
  {
    match NxtCpnDate(b, d, adjust)
    case None => []
    case Some(next) =>
      DayNumberMonotone(d, next);
      DayNumberMonotone(d, b.mtyDate);
      var rest := ScheduleFrom(b, next, adjust);
      ConsShape(d, next, rest, b.mtyDate, adjust);
      [next] + rest
  }

  /** A date before every element of an increasing sequence can go in front. */
  lemma ConsIncreasing(first: Date, rest: seq<Date>)
    requires IncreasingDates(rest)
    requires forall k :: 0 <= k < |rest| ==> Before(first, rest[k])
    ensures IncreasingDates([first] + rest)
  {
    var s := [first] + rest;
    forall i, j | 0 <= i < j < |s| ensures Before(s[i], s[j]) {
      assert s[j] == rest[j - 1];
      if i > 0 {
        assert s[i] == rest[i - 1];
      }
    }
  }

  /** Each step of the schedule moves strictly forward. */
  lemma {:induction false} ScheduleFromIncreasing(b: FixedBond, d: Date, adjust: bool)
    requires ValidBond(b) && InRange(d)
    ensures IncreasingDates(ScheduleFrom(b, d, adjust))
    decreases Gap(b, d)
  {
    match NxtCpnDate(b, d, adjust)
    case None =>
    case Some(next) =>
      DayNumberMonotone(d, next);
      DayNumberMonotone(d, b.mtyDate);
      ScheduleFromIncreasing(b, next, adjust);
      ConsIncreasing(next, ScheduleFrom(b, next, adjust));
  }

  /** `cpn_dates(adjust)` as a value: value_date followed by every next coupon date. */
  function CouponSchedule(b: FixedBond, adjust: bool): (s: seq<Date>)
    requires ValidBond(b)
    ensures |s| >= 1 && s[0] == b.valueDate
    ensures forall i :: 0 <= i < |s| ==> InRange(s[i])
    ensures !Before(b.valueDate, b.mtyDate) ==> s == [b.valueDate]
    ensures Before(b.valueDate, b.mtyDate) && adjust ==> s[|s| - 1] == b.mtyDate
    ensures Before(b.valueDate, b.mtyDate) && !adjust ==> AtOrBefore(b.mtyDate, s[|s| - 1])
  {
    var rest := ScheduleFrom(b, b.valueDate, adjust);
    ConsSchedule(b.valueDate, rest, b.mtyDate, adjust);
    [b.valueDate] + rest
  }

  /** The start date in front of the dates after it: the whole schedule's shape. */
  lemma ConsSchedule(d: Date, rest: seq<Date>, mty: Date, adjust: bool)
    requires ScheduleShape(d, rest, mty, adjust) && InRange(d) && ValidDate(mty)
    ensures var s := [d] + rest;
            && (forall i :: 0 <= i < |s| ==> InRange(s[i]))
            && (!Before(d, mty) ==> s == [d])
            && (Before(d, mty) && adjust ==> s[|s| - 1] == mty)
            && (Before(d, mty) && !adjust ==> AtOrBefore(mty, s[|s| - 1]))
  {
    var s := [d] + rest;
    forall i | 1 <= i < |s| ensures s[i] == rest[i - 1] {
    }
    if |rest| > 0 {
      DateKeyInjective(rest[|rest| - 1], mty);
    }
  }

  /** The coupon dates strictly increase, so `binary_search` over them is meaningful. */
  lemma CouponScheduleIncreasing(b: FixedBond, adjust: bool)
    requires ValidBond(b)
    ensures IncreasingDates(CouponSchedule(b, adjust))
  {
    var rest := ScheduleFrom(b, b.valueDate, adjust);
    ScheduleFromIncreasing(b, b.valueDate, adjust);
    ConsIncreasing(b.valueDate, rest);
  }

  /** `cpn_dates`: pushes each next coupon date until `nxt_cpn_date` gives none. */
  method CpnDates(b: FixedBond, adjust: bool) returns (dates: seq<Date>)
    requires ValidBond(b)
    ensures dates == CouponSchedule(b, adjust)
  {
    dates := [b.valueDate];
    var refDate := b.valueDate;
    while true
      invariant InRange(refDate)
      invariant dates + ScheduleFrom(b, refDate, adjust) == CouponSchedule(b, adjust)
      decreases Gap(b, refDate)
    {
      match NxtCpnDate(b, refDate, adjust)
      case Some(date) =>
        DayNumberMonotone(refDate, date);
        DayNumberMonotone(refDate, b.mtyDate);
        AppendStep(dates, date, ScheduleFrom(b, date, adjust));
        refDate := date;
        dates := dates + [date];
      case None =>
        break;
    }
  }

  /** Moving one date from the remaining schedule to the dates pushed so far keeps their concatenation. */
  lemma AppendStep(a: seq<Date>, x: Date, t: seq<Date>)
    ensures (a + [x]) + t == a + ([x] + t)
  {
  }

  /** The coupon paid per period: redem * rate / n, or one lump of redem * rate * years for a zero. */
  function CpnValue(b: FixedBond): (r: real)
    requires ValidFreq(b.cpnFreq)
    ensures b.cpnFreq.Regular? ==> r == b.redemValue * b.cpnRate / b.cpnFreq.perYear as real
    ensures b.cpnFreq.Zero? ==> r == b.redemValue * b.cpnRate * YearFrac(b.mtyDate, b.valueDate)
  {
    var factor := match b.cpnFreq
      case Regular(i) => 1.0 / i as real
      case Zero => YearFrac(b.mtyDate, b.valueDate);
    b.redemValue * b.cpnRate * factor
  }

  /** The dates `accrued` searches: value_date first, valid and strictly increasing. */
  predicate AccrualDates(cd: seq<Date>) {
    && |cd| >= 1
    && (forall k :: 0 <= k < |cd| ==> ValidDate(cd[k]))
    && IncreasingDates(cd)
  }

  /** A date inside the span the coupon dates cover, excluding the first. */
  predicate Covered(cd: seq<Date>, refDate: Date)
    requires |cd| >= 1
  {
    ValidDate(refDate) && Before(cd[0], refDate) && AtOrBefore(refDate, cd[|cd| - 1])
  }

  /** The chronological keys of a date sequence; the binary search runs on these. */
  function Keys(s: seq<Date>): seq<int> {
    if s == [] then [] else [DateKey(s[0])] + Keys(s[1..])
  }

  lemma {:induction false} KeysAt(s: seq<Date>)
    ensures |Keys(s)| == |s|
    ensures forall i :: 0 <= i < |s| ==> Keys(s)[i] == DateKey(s[i])
  {
    if s != [] {
      KeysAt(s[1..]);
      assert forall i :: 1 <= i < |s| ==> Keys(s)[i] == Keys(s[1..])[i - 1];
    }
  }

  /**
   * `cpn_dates.binary_search(ref_date)`: either the index of refDate, or the
   * index of the first coupon date after it; never 0, since refDate is after cd[0].
   */
  function Locate(cd: seq<Date>, refDate: Date): (r: SearchResult)
    requires AccrualDates(cd) && Covered(cd, refDate)
    ensures r.Found? ==> 1 <= r.index < |cd| && cd[r.index] == refDate
    ensures r.NotFound? ==>
              1 <= r.insertAt < |cd| && Before(cd[r.insertAt - 1], refDate) && Before(refDate, cd[r.insertAt])
  {
    var ks := Keys(cd);
    KeysAt(cd);
    var r := BinarySearch(ks, DateKey(refDate));
    match r
    case Found(i) =>
      DateKeyInjective(cd[i], refDate);
      r
    case NotFound(i) =>
      assert ks[0] < DateKey(refDate);
      assert DateKey(refDate) <= ks[|cd| - 1];
      r
  }

  /** The coupon c prorated over d of n days. */
  function Prorata(c: real, n: int, d: int): (r: real)
    requires 0 < n
    ensures d == n ==> r == c
    ensures 0.0 <= c && 0 <= d <= n ==> 0.0 <= r <= c
  {
    ProrataFacts(c, n, d);
    c / n as real * d as real
  }

  lemma ProrataFacts(c: real, n: int, d: int)
    requires 0 < n
    ensures d == n ==> c / n as real * d as real == c
    ensures 0.0 <= c && 0 <= d <= n ==> 0.0 <= c / n as real * d as real <= c
  {
    var q := c / n as real;
    assert q * n as real == c;
    if 0.0 <= c && 0 <= d <= n {
      assert 0.0 <= q;
      assert q * d as real <= q * n as real;
    }
  }

  /**
   * The closure `calculate` of `accrued`: cpn prorated by the days from the
   * coupon date before index i to refDate over the days of that period.
   */
  function Prorate(cpn: real, cd: seq<Date>, i: nat, refDate: Date): real
    requires AccrualDates(cd) && ValidDate(refDate) && 1 <= i < |cd|
  {
    DayNumberMonotone(cd[i - 1], cd[i]);
    var lastCpnDate := cd[i - 1];
    var nxtCpnDate := cd[i];
    var cpnDays := DaysBetween(lastCpnDate, nxtCpnDate);
    var days := DaysBetween(lastCpnDate, refDate);
    Prorata(cpn, cpnDays, days)
  }

  /** The lookup and proration of `accrued`, for a refDate the coupon dates cover. */
  function AccrualAt(cpn: real, cd: seq<Date>, refDate: Date, eop: bool): real
    requires AccrualDates(cd) && Covered(cd, refDate)
  {
    match Locate(cd, refDate)
    case Found(i) => if eop then 0.0 else Prorate(cpn, cd, i, refDate)
    case NotFound(i) => Prorate(cpn, cd, i, refDate)
  }

  /** On a coupon date the accrual is the whole coupon, or nothing with eop. */
  lemma AccrualOnCouponDate(cpn: real, cd: seq<Date>, refDate: Date, eop: bool)
    requires AccrualDates(cd) && Covered(cd, refDate) && refDate in cd
    ensures AccrualAt(cpn, cd, refDate, eop) == if eop then 0.0 else cpn
  {
    var k :| 0 <= k < |cd| && cd[k] == refDate;
    match Locate(cd, refDate)
    case Found(i) =>
      DayNumberMonotone(cd[i - 1], cd[i]);
    case NotFound(i) =>
      assert false;
  }

  /** Strictly between coupon dates i - 1 and i the accrual is linear in the days elapsed. */
  lemma AccrualBetweenCouponDates(cpn: real, cd: seq<Date>, refDate: Date, eop: bool, i: nat)
    requires AccrualDates(cd) && Covered(cd, refDate)
    requires 1 <= i < |cd| && Before(cd[i - 1], refDate) && Before(refDate, cd[i])
    ensures 0 < DaysBetween(cd[i - 1], refDate) < DaysBetween(cd[i - 1], cd[i])
    ensures AccrualAt(cpn, cd, refDate, eop)
            == Prorata(cpn, DaysBetween(cd[i - 1], cd[i]), DaysBetween(cd[i - 1], refDate))
  {
    DayNumberMonotone(cd[i - 1], refDate);
    DayNumberMonotone(refDate, cd[i]);
    LocateBetween(cd, refDate, i);
  }

  /** A date strictly between coupon dates i - 1 and i is located at insertion point i. */
  lemma LocateBetween(cd: seq<Date>, refDate: Date, i: nat)
    requires AccrualDates(cd) && Covered(cd, refDate)
    requires 1 <= i < |cd| && Before(cd[i - 1], refDate) && Before(refDate, cd[i])
    ensures Locate(cd, refDate) == NotFound(i)
  {
    SplitAround(cd, refDate, i);
  }

  /** The coupon dates up to i - 1 lie before d and the rest after it. */
  lemma SplitAround(cd: seq<Date>, d: Date, i: nat)
    requires AccrualDates(cd) && 1 <= i < |cd| && Before(cd[i - 1], d) && Before(d, cd[i])
    ensures forall j :: 0 <= j < i ==> Before(cd[j], d)
    ensures forall j :: i <= j < |cd| ==> Before(d, cd[j])
  {
    forall j | 0 <= j < i ensures Before(cd[j], d) {
      if j < i - 1 {
        assert Before(cd[j], cd[i - 1]);
      }
    }
    forall j | i <= j < |cd| ensures Before(d, cd[j]) {
      if j > i {
        assert Before(cd[i], cd[j]);
      }
    }
  }

  /** With a non-negative coupon the accrual stays within [0, cpn]. */
  lemma AccrualBounds(cpn: real, cd: seq<Date>, refDate: Date, eop: bool)
    requires AccrualDates(cd) && Covered(cd, refDate) && 0.0 <= cpn
    ensures 0.0 <= AccrualAt(cpn, cd, refDate, eop) <= cpn
  {
    match Locate(cd, refDate)
    case Found(i) =>
      ProrateBounds(cpn, cd, i, refDate);
    case NotFound(i) =>
      ProrateBounds(cpn, cd, i, refDate);
  }

  lemma ProrateBounds(cpn: real, cd: seq<Date>, i: nat, refDate: Date)
    requires AccrualDates(cd) && ValidDate(refDate) && 1 <= i < |cd| && 0.0 <= cpn
    requires AtOrBefore(cd[i - 1], refDate) && AtOrBefore(refDate, cd[i])
    ensures 0.0 <= Prorate(cpn, cd, i, refDate) <= cpn
  {
    AtOrBeforeIffDayNumber(cd[i - 1], refDate);
    AtOrBeforeIffDayNumber(refDate, cd[i]);
    DayNumberMonotone(cd[i - 1], cd[i]);
    assert 0 <= DaysBetween(cd[i - 1], refDate) <= DaysBetween(cd[i - 1], cd[i]);
  }

  /** Inside the bond's life the unadjusted coupon dates cover refDate. */
  lemma ScheduleCovers(b: FixedBond, refDate: Date)
    requires ValidBond(b) && ValidDate(refDate)
    requires Before(b.valueDate, refDate) && AtOrBefore(refDate, b.mtyDate)
    ensures AccrualDates(CouponSchedule(b, false)) && Covered(CouponSchedule(b, false), refDate)
  {
    CouponScheduleIncreasing(b, false);
  }

  /**
   * Accrued coupon at refDate: zero outside (value_date, mty_date], zero at
   * maturity with eop ("end of period": a coupon due on refDate counts as
   * paid), otherwise the accrual over the unadjusted coupon dates.
   */
  function Accrued(b: FixedBond, refDate: Date, eop: bool): (r: real)
    requires ValidBond(b) && ValidDate(refDate)
    ensures Before(b.mtyDate, refDate) || AtOrBefore(refDate, b.valueDate) ==> r == 0.0
    ensures eop && refDate == b.mtyDate ==> r == 0.0
  {
    if Before(b.mtyDate, refDate) || AtOrBefore(refDate, b.valueDate) then 0.0
    else if eop && refDate == b.mtyDate then 0.0
    else
      ScheduleCovers(b, refDate);
      AccrualAt(CpnValue(b), CouponSchedule(b, false), refDate, eop)
  }

  /** On an unadjusted coupon date inside the bond's life the accrual is the full coupon, or 0 with eop. */
  lemma AccruedOnCouponDate(b: FixedBond, refDate: Date, eop: bool)
    requires ValidBond(b) && ValidDate(refDate)
    requires Before(b.valueDate, refDate) && AtOrBefore(refDate, b.mtyDate)
    requires refDate in CouponSchedule(b, false)
    ensures Accrued(b, refDate, eop) == if eop then 0.0 else CpnValue(b)
  {
    ScheduleCovers(b, refDate);
    AccrualOnCouponDate(CpnValue(b), CouponSchedule(b, false), refDate, eop);
  }

  /** Strictly between two unadjusted coupon dates the accrual is linear in the days elapsed. */
  lemma AccruedBetweenCouponDates(b: FixedBond, refDate: Date, eop: bool, i: nat)
    requires ValidBond(b) && ValidDate(refDate)
    requires Before(b.valueDate, refDate) && AtOrBefore(refDate, b.mtyDate) && !(eop && refDate == b.mtyDate)
    requires var cd := CouponSchedule(b, false);
             1 <= i < |cd| && Before(cd[i - 1], refDate) && Before(refDate, cd[i])
    ensures var cd := CouponSchedule(b, false);
            0 < DaysBetween(cd[i - 1], refDate) < DaysBetween(cd[i - 1], cd[i])
    ensures var cd := CouponSchedule(b, false);
            Accrued(b, refDate, eop)
            == Prorata(CpnValue(b), DaysBetween(cd[i - 1], cd[i]), DaysBetween(cd[i - 1], refDate))
  {
    ScheduleCovers(b, refDate);
    AccrualBetweenCouponDates(CpnValue(b), CouponSchedule(b, false), refDate, eop, i);
  }

  /** With a non-negative coupon the accrual never leaves [0, cpn_value]. */
  lemma AccruedBounds(b: FixedBond, refDate: Date, eop: bool)
    requires ValidBond(b) && ValidDate(refDate) && CpnValue(b) >= 0.0
    ensures 0.0 <= Accrued(b, refDate, eop) <= CpnValue(b)
  {
    if !(Before(b.mtyDate, refDate) || AtOrBefore(refDate, b.valueDate)) && !(eop && refDate == b.mtyDate) {
      ScheduleCovers(b, refDate);
      AccrualBounds(CpnValue(b), CouponSchedule(b, false), refDate, eop);
    }
  }

  /**
   * The clean price plus the coupon accrued up to the end of refDate (eop):
   * outside the bond's life and on maturity day nothing is added.
   */
  function DirtyPrice(b: FixedBond, refDate: Date, cleanPrice: real): (r: real)
    requires ValidBond(b) && ValidDate(refDate)
    ensures AtOrBefore(refDate, b.valueDate) || Before(b.mtyDate, refDate) || refDate == b.mtyDate ==> r == cleanPrice
  {
    cleanPrice + Accrued(b, refDate, true)
  }

  /** With a non-negative coupon the dirty price lies between the clean price and one coupon above it. */
  lemma DirtyPriceBounds(b: FixedBond, refDate: Date, cleanPrice: real)
    requires ValidBond(b) && ValidDate(refDate) && CpnValue(b) >= 0.0
    ensures cleanPrice <= DirtyPrice(b, refDate, cleanPrice) <= cleanPrice + CpnValue(b)
  {
    AccruedBounds(b, refDate, true);
  }

  /** On an unadjusted coupon date the coupon counts as paid: dirty equals clean. */
  lemma DirtyPriceOnCouponDate(b: FixedBond, refDate: Date, cleanPrice: real)
    requires ValidBond(b) && ValidDate(refDate)
    requires Before(b.valueDate, refDate) && AtOrBefore(refDate, b.mtyDate)
    requires refDate in CouponSchedule(b, false)
    ensures DirtyPrice(b, refDate, cleanPrice) == cleanPrice
  {
    AccruedOnCouponDate(b, refDate, true);
  }

  /** The amount `cashflow` records at coupon date d for the requested kind. */
  function CashflowValue(b: FixedBond, cfType: BondCfType, d: Date): real
    requires ValidBond(b) && ValidDate(d)
  {
    var redem := if d == b.mtyDate then b.redemValue else 0.0;
    var cpn := Accrued(b, d, false);
    match cfType
    case Coupon => cpn
    case Redem => redem
    case All => cpn + redem
  }

  predicate AllValid(ds: seq<Date>) {
    forall i :: 0 <= i < |ds| ==> ValidDate(ds[i])
  }

  /** One entry per date, in order, carrying the amount of the requested kind. */
  function CashflowEntries(b: FixedBond, cfType: BondCfType, ds: seq<Date>): (es: seq<Cashflows.Entry>)
    requires ValidBond(b) && AllValid(ds)
    ensures |es| == |ds|
    ensures forall i :: 0 <= i < |ds| ==> es[i].date == ds[i]
  {
    if ds == [] then []
    else
      var last := ds[|ds| - 1];
      var init := CashflowEntries(b, cfType, ds[..|ds| - 1]);
      var e := Cashflows.Entry(last, CashflowValue(b, cfType, last));
      SnocDates(init, e, ds);
      init + [e]
  }

  lemma SnocDates(init: seq<Cashflows.Entry>, e: Cashflows.Entry, ds: seq<Date>)
    requires |ds| > 0 && |init| == |ds| - 1 && e.date == ds[|ds| - 1]
    requires forall i :: 0 <= i < |init| ==> init[i].date == ds[..|ds| - 1][i]
    ensures forall i :: 0 <= i < |ds| ==> (init + [e])[i].date == ds[i]
  {
  }

  /** Each entry's amount is the amount of its date. */
  lemma {:induction false} CashflowEntriesAmounts(b: FixedBond, cfType: BondCfType, ds: seq<Date>)
    requires ValidBond(b) && AllValid(ds)
    ensures forall i :: 0 <= i < |ds| ==>
              CashflowEntries(b, cfType, ds)[i].amount == CashflowValue(b, cfType, ds[i])
  {
    if ds != [] {
      var init := ds[..|ds| - 1];
      CashflowEntriesAmounts(b, cfType, init);
      forall i | 0 <= i < |ds| - 1 ensures CashflowEntries(b, cfType, ds)[i] == CashflowEntries(b, cfType, init)[i] {
      }
    }
  }

  /** Entries dated by a prefix of increasing dates are ordered and all precede the next date. */
  lemma EntriesBefore(es: seq<Cashflows.Entry>, ds: seq<Date>, k: nat)
    requires IncreasingDates(ds) && AllValid(ds) && k < |ds| && |es| == k
    requires forall i :: 0 <= i < k ==> es[i].date == ds[i]
    ensures Cashflows.Increasing(es)
    ensures forall i :: 0 <= i < |es| ==> Before(es[i].date, ds[k])
  {
  }

  /** The bond's cashflow of the given kind: one entry per adjusted coupon date after value_date. */
  function ScheduledCashflow(b: FixedBond, cfType: BondCfType): (c: Cashflows.Cashflow)
    requires ValidBond(b)
    ensures Cashflows.ValidCashflow(c)
  {
    var ds := ScheduleFrom(b, b.valueDate, true);
    var es := CashflowEntries(b, cfType, ds);
    assert Cashflows.Increasing(es) by {
      ScheduleFromIncreasing(b, b.valueDate, true);
      if |ds| > 0 {
        EntriesBefore(es[..|ds| - 1], ds, |ds| - 1);
      }
    }
    Cashflows.Cashflow(es)
  }

  /** `cashflow`: walks the adjusted coupon dates, inserting one amount per date. */
  method Cashflow(b: FixedBond, cfType: BondCfType) returns (res: Cashflows.Cashflow)
    requires ValidBond(b)
    ensures res == ScheduledCashflow(b, cfType)
  {
    var refDate := NxtCpnDate(b, b.valueDate, true);
    res := Cashflows.New();
    ghost var full := ScheduleFrom(b, b.valueDate, true);
    ghost var done: seq<Date> := [];
    while refDate.Some?
      invariant AllValid(done)
      invariant refDate.Some? ==> InRange(refDate.value)
      invariant full == done + (if refDate.Some? then [refDate.value] + ScheduleFrom(b, refDate.value, true) else [])
      invariant res.entries == CashflowEntries(b, cfType, done)
      invariant Cashflows.Increasing(res.entries)
      invariant refDate.Some? ==>
                  forall i :: 0 <= i < |res.entries| ==> Before(res.entries[i].date, refDate.value)
      decreases |full| - |done|
    {
      var date := refDate.value;
      var value := CashflowValue(b, cfType, date);
      CashflowStep(b, cfType, full, done, res.entries, date);
      res := Cashflows.Cashflow(Cashflows.Insert(res.entries, date, value));
      refDate := NxtCpnDate(b, date, true);
      done := done + [date];
    }
    assert done == full;
  }

  /**
   * One iteration of `cashflow`'s loop: inserting the amount of the next coupon
   * date appends it, and the walked dates grow by that date.
   */
  lemma CashflowStep(b: FixedBond, cfType: BondCfType, full: seq<Date>, done: seq<Date>,
                     entries: seq<Cashflows.Entry>, date: Date)
    requires ValidBond(b) && InRange(date) && AllValid(done)
    requires full == done + ([date] + ScheduleFrom(b, date, true))
    requires entries == CashflowEntries(b, cfType, done) && Cashflows.Increasing(entries)
    requires forall i :: 0 <= i < |entries| ==> Before(entries[i].date, date)
    ensures var value := CashflowValue(b, cfType, date);
            var next := Cashflows.Insert(entries, date, value);
            var n := NxtCpnDate(b, date, true);
            && AllValid(done + [date])
            && next == CashflowEntries(b, cfType, done + [date])
            && Cashflows.Increasing(next)
            && full == (done + [date]) + (if n.Some? then [n.value] + ScheduleFrom(b, n.value, true) else [])
            && (n.Some? ==> InRange(n.value) && forall i :: 0 <= i < |next| ==> Before(next[i].date, n.value))
  {
    var value := CashflowValue(b, cfType, date);
    Cashflows.InsertLast(entries, date, value);
    EntriesSnoc(b, cfType, done, date);
    CashflowAdvance(b, full, done, date);
    var n := NxtCpnDate(b, date, true);
    if n.Some? {
      AfterAll(entries, date, n.value, value);
    }
  }

  /** Moving one coupon date from the remaining schedule to the walked part. */
  lemma CashflowAdvance(b: FixedBond, full: seq<Date>, done: seq<Date>, date: Date)
    requires ValidBond(b) && InRange(date)
    requires full == done + ([date] + ScheduleFrom(b, date, true))
    ensures var n := NxtCpnDate(b, date, true);
            && full == (done + [date]) + (if n.Some? then [n.value] + ScheduleFrom(b, n.value, true) else [])
            && (n.Some? ==> InRange(n.value) && Before(date, n.value))
  {
    AppendStep(done, date, ScheduleFrom(b, date, true));
  }

  /** Extending the dates by one extends the entries by that date's entry. */
  lemma EntriesSnoc(b: FixedBond, cfType: BondCfType, ds: seq<Date>, d: Date)
    requires ValidBond(b) && AllValid(ds) && ValidDate(d)
    ensures AllValid(ds + [d])
    ensures CashflowEntries(b, cfType, ds + [d])
         == CashflowEntries(b, cfType, ds) + [Cashflows.Entry(d, CashflowValue(b, cfType, d))]
  {
    assert (ds + [d])[..|ds|] == ds;
  }

  /** Entries all before d, followed by d, are all before any later date. */
  lemma AfterAll(es: seq<Cashflows.Entry>, d: Date, next: Date, v: real)
    requires forall i :: 0 <= i < |es| ==> Before(es[i].date, d)
    requires Before(d, next)
    ensures forall i :: 0 <= i < |es + [Cashflows.Entry(d, v)]| ==> Before((es + [Cashflows.Entry(d, v)])[i].date, next)
  {
  }

  /** The keys of `cashflow` are the adjusted coupon dates without value_date. */
  lemma CashflowDates(b: FixedBond, cfType: BondCfType)
    requires ValidBond(b)
    ensures Cashflows.Dates(ScheduledCashflow(b, cfType)) == CouponSchedule(b, true)[1..]
  {
    var ds := ScheduleFrom(b, b.valueDate, true);
    assert CouponSchedule(b, true)[1..] == ds;
  }

  /**
   * The redemption amount sits only at maturity, the coupon amount is the
   * unadjusted accrual of each date, and All is their sum, entry by entry.
   */
  lemma CashflowKinds(b: FixedBond, i: nat)
    requires ValidBond(b) && i < Cashflows.Len(ScheduledCashflow(b, All))
    ensures var all := ScheduledCashflow(b, All).entries;
            var cpn := ScheduledCashflow(b, Coupon).entries;
            var red := ScheduledCashflow(b, Redem).entries;
            && |cpn| == |all| && |red| == |all|
            && cpn[i].date == all[i].date && red[i].date == all[i].date
            && red[i].amount == (if all[i].date == b.mtyDate then b.redemValue else 0.0)
            && cpn[i].amount == Accrued(b, all[i].date, false)
            && all[i].amount == cpn[i].amount + red[i].amount
  {
    EntryKinds(b, ScheduleFrom(b, b.valueDate, true), i);
  }

  /** Entry by entry, the three kinds over the same dates. */
  lemma EntryKinds(b: FixedBond, ds: seq<Date>, i: nat)
    requires ValidBond(b) && AllValid(ds) && i < |ds|
    ensures var all := CashflowEntries(b, All, ds);
            var cpn := CashflowEntries(b, Coupon, ds);
            var red := CashflowEntries(b, Redem, ds);
            && cpn[i].date == all[i].date && red[i].date == all[i].date
            && red[i].amount == (if all[i].date == b.mtyDate then b.redemValue else 0.0)
            && cpn[i].amount == Accrued(b, all[i].date, false)
            && all[i].amount == cpn[i].amount + red[i].amount
  {
    CashflowEntriesAmounts(b, All, ds);
    CashflowEntriesAmounts(b, Coupon, ds);
    CashflowEntriesAmounts(b, Redem, ds);
  }

  /** A bond whose value date is not before maturity pays nothing. */
  lemma CashflowEmptyIff(b: FixedBond, cfType: BondCfType)
    requires ValidBond(b)
    ensures Cashflows.Len(ScheduledCashflow(b, cfType)) == 0 <==> !Before(b.valueDate, b.mtyDate)
    ensures Cashflows.Len(ScheduledCashflow(b, cfType)) > 0 ==>
              ScheduledCashflow(b, cfType).entries[Cashflows.Len(ScheduledCashflow(b, cfType)) - 1].date == b.mtyDate
  {
    var ds := ScheduleFrom(b, b.valueDate, true);
    if |ds| > 0 {
      DateKeyInjective(ds[|ds| - 1], b.mtyDate);
    }
  }

  /**
   * The early exit of `result`: the view of the All cashflow relative to refDate,
   * with the dirty price as initial outflow, or none when that view is empty.
   */
  method ValuationCashflow(b: FixedBond, refDate: Date, cleanPrice: real) returns (view: Option<Cashflows.Cashflow>)
    requires ValidBond(b) && ValidDate(refDate)
    ensures view.None? <==> !Before(b.valueDate, b.mtyDate)
    ensures view.Some? ==> view.value == Cashflows.View(ScheduledCashflow(b, All), refDate, Some(DirtyPrice(b, refDate, cleanPrice)))
  {
    var dirtyPrice := DirtyPrice(b, refDate, cleanPrice);
    var all := Cashflow(b, All);
    var cf := Cashflows.Cf(all, refDate, Some(dirtyPrice));
    CashflowEmptyIff(b, All);
    if Cashflows.Len(cf) == 0 {
      return None;
    }
    return Some(cf);
  }

  // ---------------------------------------------------------------------------
  // The unit-test bonds.

  /** The 5% semiannual bond from 2010-01-01 to 2015-01-01 with redemption 100. */
  function SemiannualBond(): FixedBond {
    FixedBond(Date(2010, 1, 1), Date(2015, 1, 1), 100.0, 0.05, Regular(2))
  }

  /** Half a year after 2010-01-01 and after 2010-07-01. */
  lemma SemiannualSteps()
    ensures AddMonths(Date(2010, 1, 1), 6) == Date(2010, 7, 1)
    ensures AddMonths(Date(2010, 7, 1), 6) == Date(2011, 1, 1)
  {
    AddMonthsExample(Date(2010, 1, 1), 6, Date(2010, 7, 1));
    AddMonthsExample(Date(2010, 7, 1), 6, Date(2011, 1, 1));
  }

  /** A step of the schedule: the dates after d are the next coupon date and the dates after it. */
  lemma ScheduleFromStep(b: FixedBond, d: Date, adjust: bool, next: Date)
    requires ValidBond(b) && InRange(d) && NxtCpnDate(b, d, adjust) == Some(next)
    ensures InRange(next)
    ensures ScheduleFrom(b, d, adjust) == [next] + ScheduleFrom(b, next, adjust)
  {
  }

  /** The schedule's first coupon dates, from the first two steps of `nxt_cpn_date`. */
  lemma FirstCouponDates(b: FixedBond, adjust: bool, d1: Date, d2: Date)
    requires ValidBond(b)
    requires NxtCpnDate(b, b.valueDate, adjust) == Some(d1)
    requires InRange(d1) ==> NxtCpnDate(b, d1, adjust) == Some(d2)
    ensures var cd := CouponSchedule(b, adjust);
            |cd| > 2 && cd[0] == b.valueDate && cd[1] == d1 && cd[2] == d2
  {
    ScheduleFromStep(b, b.valueDate, adjust, d1);
    ScheduleFromStep(b, d1, adjust, d2);
  }

  /** A schedule of one coupon date. */
  lemma OneCouponDate(b: FixedBond, adjust: bool, d1: Date)
    requires ValidBond(b)
    requires NxtCpnDate(b, b.valueDate, adjust) == Some(d1)
    ensures var cd := CouponSchedule(b, adjust);
            |cd| > 1 && cd[0] == b.valueDate && cd[1] == d1
  {
    ScheduleFromStep(b, b.valueDate, adjust, d1);
  }

  /** A schedule that ends after two steps. */
  lemma TwoCouponDates(b: FixedBond, adjust: bool, d1: Date, d2: Date)
    requires ValidBond(b)
    requires NxtCpnDate(b, b.valueDate, adjust) == Some(d1)
    requires InRange(d1) ==> NxtCpnDate(b, d1, adjust) == Some(d2)
    requires InRange(d2) ==> NxtCpnDate(b, d2, adjust).None?
    ensures ScheduleFrom(b, b.valueDate, adjust) == [d1, d2]
  {
    ScheduleFromStep(b, b.valueDate, adjust, d1);
    ScheduleFromStep(b, d1, adjust, d2);
  }

  /** The semiannual bond pays 2.5 per period. */
  lemma SemiannualCoupon()
    ensures CpnValue(SemiannualBond()) == 2.5
  {
  }

  /** Its second coupon date is 2011-01-01. */
  lemma SemiannualSchedule()
    ensures var cd := CouponSchedule(SemiannualBond(), false);
            |cd| > 2 && cd[1] == Date(2010, 7, 1) && cd[2] == Date(2011, 1, 1)
  {
    SemiannualSteps();
    FirstCouponDates(SemiannualBond(), false, Date(2010, 7, 1), Date(2011, 1, 1));
  }

  /** On its coupon date 2011-01-01 the bond has accrued 2.5, and its dirty price equals the clean one. */
  lemma SemiannualAccrual()
    ensures Accrued(SemiannualBond(), Date(2011, 1, 1), false) == 2.5
    ensures DirtyPrice(SemiannualBond(), Date(2011, 1, 1), 100.0) == 100.0
    ensures Accrued(SemiannualBond(), Date(2010, 1, 1), true) == 0.0
  {
    var b := SemiannualBond();
    SemiannualCoupon();
    SemiannualSchedule();
    var cd := CouponSchedule(b, false);
    assert cd[2] == Date(2011, 1, 1);
    AccruedOnCouponDate(b, Date(2011, 1, 1), false);
    DirtyPriceOnCouponDate(b, Date(2011, 1, 1), 100.0);
  }

  /** The day counts of the test bonds' coupon periods: 2010 and 2011 are common years. */
  lemma TestPeriodDays()
    ensures DaysBetween(Date(2010, 1, 1), Date(2010, 2, 1)) == 31
    ensures DaysBetween(Date(2010, 1, 1), Date(2011, 1, 1)) == 365
    ensures DaysBetween(Date(2010, 1, 1), Date(2012, 1, 1)) == 730
    ensures DaysBetween(Date(2010, 7, 1), Date(2010, 8, 1)) == 31
    ensures DaysBetween(Date(2010, 7, 1), Date(2011, 1, 1)) == 184
  {
  }

  /** The same bond paying annually. */
  function AnnualBond(): FixedBond {
    SemiannualBond().(cpnFreq := Regular(1))
  }

  /** Between its first two coupon dates the annual bond has accrued 31 of 365 days of its coupon of 5. */
  lemma AnnualAccrual()
    ensures Accrued(AnnualBond(), Date(2010, 2, 1), true) == 31.0 / 365.0 * 5.0
  {
    var b := AnnualBond();
    TestPeriodDays();
    AddMonthsExample(Date(2010, 1, 1), 12, Date(2011, 1, 1));
    OneCouponDate(b, false, Date(2011, 1, 1));
    AccruedBetweenCouponDates(b, Date(2010, 2, 1), true, 1);
    assert CpnValue(b) == 5.0;
    assert Accrued(b, Date(2010, 2, 1), true) == Prorata(5.0, 365, 31);
  }

  /** A two-year 5% zero-coupon bond. */
  function ZeroBond(): FixedBond {
    FixedBond(Date(2010, 1, 1), Date(2012, 1, 1), 100.0, 0.05, Zero)
  }

  /** The zero-coupon bond accrues its single coupon of 10 over the 730 days to maturity. */
  lemma ZeroCouponAccrual()
    ensures Accrued(ZeroBond(), Date(2010, 2, 1), true) == 31.0 / (365.0 + 365.0) * (5.0 * 2.0)
  {
    var b := ZeroBond();
    TestPeriodDays();
    OneCouponDate(b, false, Date(2012, 1, 1));
    AccruedBetweenCouponDates(b, Date(2010, 2, 1), true, 1);
    assert CpnValue(b) == 10.0;
    assert Accrued(b, Date(2010, 2, 1), true) == Prorata(10.0, 730, 31);
  }

  /** The semiannual bond shortened to mature on 2010-08-01. */
  function ShortBond(): FixedBond {
    SemiannualBond().(mtyDate := Date(2010, 8, 1))
  }

  /** Its adjusted schedule snaps 2011-01-01 back to maturity; the unadjusted one keeps it. */
  lemma ShortBondSchedules()
    ensures ScheduleFrom(ShortBond(), Date(2010, 1, 1), true) == [Date(2010, 7, 1), Date(2010, 8, 1)]
    ensures var cd := CouponSchedule(ShortBond(), false);
            |cd| > 2 && cd[1] == Date(2010, 7, 1) && cd[2] == Date(2011, 1, 1)
  {
    SemiannualSteps();
    TwoCouponDates(ShortBond(), true, Date(2010, 7, 1), Date(2010, 8, 1));
    FirstCouponDates(ShortBond(), false, Date(2010, 7, 1), Date(2011, 1, 1));
  }

  /** A full coupon on 2010-07-01, and 31 of 184 days of one at maturity. */
  lemma ShortBondCoupons()
    ensures Accrued(ShortBond(), Date(2010, 7, 1), false) == 2.5
    ensures Accrued(ShortBond(), Date(2010, 8, 1), false) == 2.5 / 184.0 * 31.0
  {
    ShortBondSchedules();
    assert CpnValue(ShortBond()) == 2.5;
    AccruedOnCouponDate(ShortBond(), Date(2010, 7, 1), false);
    ShortBondLastCoupon();
  }

  lemma ShortBondLastCoupon()
    requires CpnValue(ShortBond()) == 2.5
    requires var cd := CouponSchedule(ShortBond(), false);
             |cd| > 2 && cd[1] == Date(2010, 7, 1) && cd[2] == Date(2011, 1, 1)
    ensures Accrued(ShortBond(), Date(2010, 8, 1), false) == 2.5 / 184.0 * 31.0
  {
    TestPeriodDays();
    AccruedBetweenCouponDates(ShortBond(), Date(2010, 8, 1), false, 2);
    assert Accrued(ShortBond(), Date(2010, 8, 1), false) == Prorata(2.5, 184, 31);
  }

  /** A cashflow of two coupon dates holds the amounts of those two dates. */
  lemma TwoEntries(b: FixedBond, cfType: BondCfType, d1: Date, d2: Date, v1: real, v2: real)
    requires ValidBond(b) && ScheduleFrom(b, b.valueDate, true) == [d1, d2]
    requires ValidDate(d1) && CashflowValue(b, cfType, d1) == v1
    requires ValidDate(d2) && CashflowValue(b, cfType, d2) == v2
    ensures ScheduledCashflow(b, cfType).entries == [Cashflows.Entry(d1, v1), Cashflows.Entry(d2, v2)]
  {
    CashflowEntriesAmounts(b, cfType, [d1, d2]);
  }

  /**
   * The short bond pays a full coupon on 2010-07-01 and, at maturity, the
   * redemption with the coupon of the 31 days since.
   */
  lemma ShortBondCashflow()
    ensures ScheduledCashflow(ShortBond(), All).entries
            == [Cashflows.Entry(Date(2010, 7, 1), 2.5),
                Cashflows.Entry(Date(2010, 8, 1), 100.0 + 5.0 * 0.5 * 31.0 / 184.0)]
  {
    var b := ShortBond();
    ShortBondSchedules();
    ShortBondCoupons();
    TwoEntries(b, All, Date(2010, 7, 1), Date(2010, 8, 1), 2.5, 100.0 + 5.0 * 0.5 * 31.0 / 184.0);
  }
}
