/**
 * Cash-flow schedules for the internal rate of return: validation of a
 * schedule, its net present value at a rate (XNPV) with year fractions
 * measured from the first date, and the error path of the IRR search.
 *
 * `f64::powf` and the root finder are not part of this model: both are
 * parameters, `pow` and `findRoot`.
 */
module Xirr {
  import opened Wrappers
  import opened Sums
  import opened DateHandle

  /** The schedule's failures, one per message. */
  datatype XirrError = LengthMismatch | FirstNotEarliest | NoRoot

  function Message(e: XirrError): string {
    match e
    case LengthMismatch => "Values and dates length must match"
    case FirstNotEarliest => "First date must be the earliest"
    case NoRoot => "could't find irr for the values provided"
  }

  /** `CheckedCashflowSchedule`: the values and the dates they fall on. */
  datatype Schedule = Schedule(values: seq<real>, dates: seq<Date>)

  /** What `new` establishes: a date per value, and no date before the first. */
  predicate Checked(cf: Schedule) {
    |cf.values| == |cf.dates|
    && (|cf.dates| > 0 ==> forall j :: 0 <= j < |cf.dates| ==> !Before(cf.dates[j], cf.dates[0]))
  }

  /** `dates.iter().any(|d| *d < *d0)`. */
  function AnyBefore(dates: seq<Date>, d0: Date): (r: bool)
    ensures r <==> exists j :: 0 <= j < |dates| && Before(dates[j], d0)
  {
    if dates == [] then false
    else
      var rest := AnyBefore(dates[1..], d0);
      assert rest <==> exists j :: 1 <= j < |dates| && Before(dates[j], d0) by {
        if exists j :: 1 <= j < |dates| && Before(dates[j], d0) {
          var j :| 1 <= j < |dates| && Before(dates[j], d0);
          assert dates[1..][j - 1] == dates[j];
        }
      }
      Before(dates[0], d0) || rest
  }

  /**
   * `CheckedCashflowSchedule::new`: a length mismatch first, then a date
   * before the first one. The first date is read unconditionally, so a
   * caller must not pass two empty slices.
   */
  function New(values: seq<real>, dates: seq<Date>): (r: Result<Schedule, XirrError>)
    requires |values| == |dates| ==> |dates| > 0
    ensures |values| != |dates| ==> r == Err(LengthMismatch)
    ensures |values| == |dates| ==> (r.Err? <==> exists j :: 0 <= j < |dates| && Before(dates[j], dates[0]))
    ensures |values| == |dates| && r.Err? ==> r.error == FirstNotEarliest
    ensures r.Ok? ==> r.value == Schedule(values, dates) && Checked(r.value)
  {
    if |values| != |dates| then Err(LengthMismatch)
    else if AnyBefore(dates, dates[0]) then Err(FirstNotEarliest)
    else Ok(Schedule(values, dates))
  }

  /** No power of the base is zero, so dividing by one is defined. */
  ghost predicate NonZeroPowers(pow: (real, real) -> real, base: real) {
    forall t :: pow(base, t) != 0.0
  }

  /** Each value divided by the power of 1 + rate to its year fraction from d0. */
  function Terms(values: seq<real>, dates: seq<Date>, d0: Date, rate: real, pow: (real, real) -> real): (r: seq<real>)
    requires |values| == |dates|
    requires NonZeroPowers(pow, 1.0 + rate)
    ensures |r| == |values|
  {
    seq(|values|, i requires 0 <= i < |values| => values[i] / pow(1.0 + rate, YearFrac(dates[i], d0)))
  }

  /**
   * `calculate_xnpv`: zero for no values, their plain sum at a zero rate,
   * and otherwise the sum of the discounted values, discounted from the
   * first date.
   */
  function CalculateXnpv(rate: real, cf: Schedule, pow: (real, real) -> real): real
    requires |cf.values| == |cf.dates|
    requires NonZeroPowers(pow, 1.0 + rate)
  {
    if cf.values == [] then 0.0
    else if rate == 0.0 then Sum(cf.values)
    else Sum(Terms(cf.values, cf.dates, cf.dates[0], rate, pow))
  }

  /**
   * `xnpv`: the XNPV of the schedule once it is checked; the validation
   * error, unchanged, otherwise.
   */
  function Xnpv(rate: real, values: seq<real>, dates: seq<Date>, pow: (real, real) -> real): (r: Result<real, XirrError>)
    requires |values| == |dates| ==> |dates| > 0
    requires NonZeroPowers(pow, 1.0 + rate)
    ensures r.Err? <==> New(values, dates).Err?
    ensures r.Err? ==> r.error == New(values, dates).error
    ensures r.Ok? ==> Checked(Schedule(values, dates)) && r.value == CalculateXnpv(rate, Schedule(values, dates), pow)
  {
    match New(values, dates)
    case Err(m) => Err(m)
    case Ok(cf) => Ok(CalculateXnpv(rate, cf, pow))
  }

  /**
   * The XNPV of a schedule as a function of the rate, the closure `xirr`
   * hands to the root finder; it is defined at every rate whose base
   * 1 + rate has no zero power.
   */
  function XnpvOf(cf: Schedule, pow: (real, real) -> real): (f: real --> real)
    requires |cf.values| == |cf.dates|
    ensures forall x :: NonZeroPowers(pow, 1.0 + x) ==> f.requires(x) && f(x) == CalculateXnpv(x, cf, pow)
  {
    x requires NonZeroPowers(pow, 1.0 + x) => CalculateXnpv(x, cf, pow)
  }

  /** The third argument `xirr` passes to the root finder. */
  const RootParameter: real := 1.1

  /**
   * `xirr`: the validation error unchanged; on a checked schedule, the root
   * the finder returns for the XNPV closure, or NoRoot when it finds none.
   */
  function Xirr(values: seq<real>, dates: seq<Date>, guess: Option<real>,
                findRoot: (Option<real>, real --> real, real) -> Option<real>,
                pow: (real, real) -> real): (r: Result<real, XirrError>)
    requires |values| == |dates| ==> |dates| > 0
    ensures New(values, dates).Err? ==> r == Err(New(values, dates).error)
    ensures New(values, dates).Ok? ==>
              var found := findRoot(guess, XnpvOf(Schedule(values, dates), pow), RootParameter);
              (r.Ok? <==> found.Some?) && (r.Ok? ==> r.value == found.value) && (r.Err? ==> r.error == NoRoot)
  {
    match New(values, dates)
    case Err(m) => Err(m)
    case Ok(cf) =>
      match findRoot(guess, XnpvOf(cf, pow), RootParameter)
      case Some(ans) => Ok(ans)
      case None => Err(NoRoot)
  }

  // ---------------------------------------------------------------------------
  // Properties.

  /**
   * The two short cuts of `calculate_xnpv`: no values are worth zero, and at
   * a zero rate nothing is discounted.
   */
  lemma XnpvShortcuts(rate: real, cf: Schedule, pow: (real, real) -> real)
    requires |cf.values| == |cf.dates|
    requires NonZeroPowers(pow, 1.0 + rate)
    ensures cf.values == [] ==> CalculateXnpv(rate, cf, pow) == 0.0
    ensures rate == 0.0 ==> CalculateXnpv(rate, cf, pow) == Sum(cf.values)
  {
  }

  /** On a checked schedule `xnpv` at a zero rate is the plain sum of the values. */
  lemma ZeroRateXnpv(values: seq<real>, dates: seq<Date>, pow: (real, real) -> real)
    requires |values| == |dates| && |dates| > 0
    requires forall j :: 0 <= j < |dates| ==> !Before(dates[j], dates[0])
    requires NonZeroPowers(pow, 1.0)
    ensures Xnpv(0.0, values, dates, pow) == Ok(Sum(values))
  {
  }

  /** The first value is not discounted at all: its year fraction is zero. */
  lemma FirstTermUndiscounted(cf: Schedule, rate: real, pow: (real, real) -> real)
    requires |cf.values| == |cf.dates| && cf.values != []
    requires NonZeroPowers(pow, 1.0 + rate)
    ensures Terms(cf.values, cf.dates, cf.dates[0], rate, pow)[0] == cf.values[0] / pow(1.0 + rate, 0.0)
  {
    YearFracSelf(cf.dates[0]);
  }

  /**
   * The shortcut at a zero rate agrees with the general sum whenever a power
   * of one is one.
   */
  lemma ZeroRateShortcut(cf: Schedule, pow: (real, real) -> real)
    requires |cf.values| == |cf.dates|
    requires forall t :: pow(1.0, t) == 1.0
    ensures cf.values != [] ==> CalculateXnpv(0.0, cf, pow) == Sum(Terms(cf.values, cf.dates, cf.dates[0], 0.0, pow))
  {
    if cf.values != [] {
      var ts := Terms(cf.values, cf.dates, cf.dates[0], 0.0, pow);
      forall i | 0 <= i < |ts| ensures ts[i] == cf.values[i] {
        assert pow(1.0 + 0.0, YearFrac(cf.dates[i], cf.dates[0])) == 1.0;
      }
      assert ts == cf.values;
    }
  }

  /** Scaling every value scales the sum. */
  lemma {:induction false} SumScale(c: real, xs: seq<real>, ys: seq<real>)
    requires |xs| == |ys| && forall i :: 0 <= i < |xs| ==> ys[i] == c * xs[i]
    ensures Sum(ys) == c * Sum(xs)
  {
    if xs != [] {
      var n := |xs| - 1;
      SumScale(c, xs[..n], ys[..n]);
    }
  }

  /** A factor of the dividend can be taken out of the quotient. */
  lemma ScaleQuotient(c: real, v: real, p: real)
    requires p != 0.0
    ensures (c * v) / p == c * (v / p)
  {
  }

  /**
   * Scaling every value of a schedule scales its XNPV, so a rate that zeroes
   * one zeroes the other.
   */
  lemma XnpvScale(c: real, cf: Schedule, scaled: Schedule, rate: real, pow: (real, real) -> real)
    requires |cf.values| == |cf.dates| && scaled.dates == cf.dates && |scaled.values| == |cf.values|
    requires forall i :: 0 <= i < |cf.values| ==> scaled.values[i] == c * cf.values[i]
    requires NonZeroPowers(pow, 1.0 + rate)
    ensures CalculateXnpv(rate, scaled, pow) == c * CalculateXnpv(rate, cf, pow)
  {
    if cf.values != [] {
      if rate == 0.0 {
        SumScale(c, cf.values, scaled.values);
      } else {
        var d0 := cf.dates[0];
        TermsScale(c, cf, scaled, d0, rate, pow);
        SumScale(c, Terms(cf.values, cf.dates, d0, rate, pow), Terms(scaled.values, scaled.dates, d0, rate, pow));
      }
    }
  }

  /** Scaling every value scales every discounted term. */
  lemma TermsScale(c: real, cf: Schedule, scaled: Schedule, d0: Date, rate: real, pow: (real, real) -> real)
    requires |cf.values| == |cf.dates| && scaled.dates == cf.dates && |scaled.values| == |cf.values|
    requires forall i :: 0 <= i < |cf.values| ==> scaled.values[i] == c * cf.values[i]
    requires NonZeroPowers(pow, 1.0 + rate)
    ensures var ts, ss := Terms(cf.values, cf.dates, d0, rate, pow), Terms(scaled.values, scaled.dates, d0, rate, pow);
            forall i :: 0 <= i < |ts| ==> ss[i] == c * ts[i]
  {
    forall i | 0 <= i < |cf.values|
      ensures Terms(scaled.values, scaled.dates, d0, rate, pow)[i] == c * Terms(cf.values, cf.dates, d0, rate, pow)[i]
    {
      ScaleQuotient(c, cf.values[i], pow(1.0 + rate, YearFrac(cf.dates[i], d0)));
    }
  }

  /** A valid date not before d0 lies a non-negative year fraction after it. */
  lemma YearFracNonNegative(d: Date, d0: Date)
    requires ValidDate(d) && ValidDate(d0) && !Before(d, d0)
    ensures YearFrac(d, d0) >= 0.0
  {
    KeyBounds(d);
    KeyBounds(d0);
    if d.year == d0.year && d.month == d0.month {
    } else if d.year == d0.year {
      assert d.month > d0.month;
    } else {
      assert d.year > d0.year;
    }
  }

  /** A checked schedule of valid dates is never compounded backwards: every exponent is non-negative. */
  lemma CheckedExponents(cf: Schedule)
    requires Checked(cf) && cf.dates != []
    requires forall j :: 0 <= j < |cf.dates| ==> ValidDate(cf.dates[j])
    ensures forall j :: 0 <= j < |cf.dates| ==> YearFrac(cf.dates[j], cf.dates[0]) >= 0.0
  {
    forall j | 0 <= j < |cf.dates| ensures YearFrac(cf.dates[j], cf.dates[0]) >= 0.0 {
      YearFracNonNegative(cf.dates[j], cf.dates[0]);
    }
  }

  /**
   * The schedule of the unit test: -100 on 2021-01-01 and 105 on 2022-01-01
   * (or 2020-01-01 and 2021-01-01: the year fraction ignores leap days) has
   * XNPV zero at 5%, for any power that takes 1.05 to exponent 0 to 1 and to
   * exponent 1 to 1.05.
   */
  lemma TestScheduleRoot(y: int, pow: (real, real) -> real)
    requires NonZeroPowers(pow, 1.05) && pow(1.05, 0.0) == 1.0 && pow(1.05, 1.0) == 1.05
    ensures Xnpv(0.05, [-100.0, 105.0], [Date(y, 1, 1), Date(y + 1, 1, 1)], pow) == Ok(0.0)
  {
    var cf := Schedule([-100.0, 105.0], [Date(y, 1, 1), Date(y + 1, 1, 1)]);
    assert !Before(Date(y + 1, 1, 1), Date(y, 1, 1));
    assert YearFrac(Date(y, 1, 1), Date(y, 1, 1)) == 0.0;
    assert YearFrac(Date(y + 1, 1, 1), Date(y, 1, 1)) == 1.0;
    var ts := Terms(cf.values, cf.dates, cf.dates[0], 0.05, pow);
    assert ts[0] == -100.0 / pow(1.05, 0.0) == -100.0;
    assert ts[1] == 105.0 / pow(1.05, 1.0) == 100.0;
    assert ts[..1][..0] == [];
    assert Sum(ts[..1]) == Sum(ts[..1][..0]) + ts[0] == -100.0;
  }
}
