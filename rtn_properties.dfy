/**
 * Properties relating the return measures of module Rtn to each other:
 * the average capital of Modified Dietz without flows and with inflows,
 * and Modified Dietz agreeing with the time-weighted return over a window
 * without flows; and the expectations of the unit tests on their example
 * series.
 */
module RtnProperties {
  import opened Wrappers
  import opened Rtn
  import opened Sums

  // ---------------------------------------------------------------------------
  // Real-number steps.

  /** Growth factors chain: a growth of a/m linked with a return of b/a - 1 is a growth of b/m. */
  lemma GrowthStep(g: Option<real>, d: Option<real>, m: real, a: real, b: real)
    requires m != 0.0 && a != 0.0
    requires g.Some? && g.value == a / m && d.Some? && 1.0 + d.value == b / a
    ensures Link(g, d).Some? && Link(g, d).value == b / m
  {
    var x, y := g.value, 1.0 + d.value;
    assert x * y == (a * b) / (m * a);
    assert (a * b) / (m * a) == b / m;
  }

  /** The first link: a growth of one linked with a return of b/a - 1 is a growth of b/a. */
  lemma FirstGrowth(g: Option<real>, d: Option<real>, a: real, b: real)
    requires a != 0.0
    requires g == Some(1.0) && d.Some? && 1.0 + d.value == b / a
    ensures Link(g, d).Some? && Link(g, d).value == b / a
  {
  }

  /** A growth factor less one. */
  lemma LessOneValue(g: Option<real>, v: real)
    requires g.Some? && g.value == v
    ensures LessOne(g) == Some(v - 1.0)
  {
  }

  /** A gain of x - m over a capital of m is the growth x/m less one. */
  lemma RatioOfGain(pl: real, avc: Option<real>, m: real, x: real)
    requires avc.Some? && avc.value == m && m != 0.0 && pl == x - m
    ensures Ratio(Some(pl), avc) == Some(x / m - 1.0)
  {
    assert m / m == 1.0;
    assert (x - m) / m == x / m - m / m;
  }

  // ---------------------------------------------------------------------------
  // Windows without flows.

  /** On a day without flow, one plus the daily return is the growth of the market value. */
  lemma DayGrowth(s: Series, i: nat)
    requires ValidSeries(s) && 0 < i < |s.dates|
    requires Cf(s, i) == Some(0.0) && s.mvs[i - 1] != 0.0
    ensures Dr(s, i).Some? && 1.0 + Dr(s, i).value == s.mvs[i] / s.mvs[i - 1]
  {
    assert Capital(s, i) == s.mvs[i - 1];
  }

  /**
   * Daily returns whose growth factors are the ratios of consecutive values
   * link to the ratio of the last value to the first.
   */
  lemma {:induction false} GrowthTelescopes(vs: seq<real>, drs: seq<Option<real>>, k: nat)
    requires k < |drs| && |vs| == |drs| + 1
    requires forall j :: 0 <= j <= k ==> vs[j] != 0.0
    requires forall j :: 0 <= j <= k ==> drs[j].Some? && 1.0 + drs[j].value == vs[j + 1] / vs[j]
    ensures Growth(drs[..k + 1]).Some? && Growth(drs[..k + 1]).value == vs[k + 1] / vs[0]
  {
    GrowthSnoc(drs, k);
    if k == 0 {
      assert drs[..0] == [];
      FirstGrowth(Growth(drs[..0]), drs[0], vs[0], vs[1]);
    } else {
      GrowthTelescopes(vs, drs, k - 1);
      GrowthStep(Growth(drs[..k]), drs[k], vs[0], vs[k], vs[k + 1]);
    }
  }

  /** Daily gains that are the differences of consecutive values add up to the last value less the first. */
  lemma {:induction false} GainsTelescope(vs: seq<real>, pls: seq<real>, k: nat)
    requires k < |pls| && |vs| == |pls| + 1
    requires forall j :: 0 <= j <= k ==> pls[j] == vs[j + 1] - vs[j]
    ensures Sum(pls[..k + 1]) == vs[k + 1] - vs[0]
  {
    assert pls[..k + 1][..k] == pls[..k];
    if k == 0 {
      assert pls[..1][..0] == [];
    } else {
      GainsTelescope(vs, pls, k - 1);
    }
  }

  /** The average capital of a day is the market value before the window plus the weighted flows. */
  lemma DietzAvcValue(s: Series, from: int, to: int, k: nat, w: real)
    requires ValidSeries(s) && InWindow(s, from, to) && First(s) < from && k <= to - from
    requires var ids := IDates(s, from, to).value; WeightedCf(ids, WindowCfs(s, ids), k) == Some(w)
    ensures DietzAvc(s, from, to).value[k].Some?
    ensures DietzAvc(s, from, to).value[k].value == w + s.mvs[from - First(s) - 1]
  {
    var ids := IDates(s, from, to).value;
    assert ids[0] == from - First(s);
    assert Mv0(s, ids[0]) == Some(s.mvs[from - First(s) - 1]);
  }

  /** Without flows the average capital of every day is the market value before the window. */
  lemma DietzAvcNoFlows(s: Series, from: int, to: int, k: nat)
    requires ValidSeries(s) && InWindow(s, from, to) && First(s) < from && k <= to - from
    requires forall i :: from - First(s) <= i <= to - First(s) ==> Cf(s, i) == Some(0.0)
    ensures DietzAvc(s, from, to).value[k].Some?
    ensures DietzAvc(s, from, to).value[k].value == s.mvs[from - First(s) - 1]
  {
    var ids := IDates(s, from, to).value;
    var cfs := WindowCfs(s, ids);
    forall j | 0 <= j <= k ensures cfs[j] == Some(0.0) {
      assert cfs[j] == Cf(s, ids[j]);
    }
    WeightedCfZero(ids, cfs, k);
    DietzAvcValue(s, from, to, k, 0.0);
  }

  /** The flows of the k + 1 days from position i0, when they are all known. */
  function Flows(s: Series, i0: nat, k: nat): (r: seq<real>)
    requires forall i :: i0 <= i <= i0 + k ==> Cf(s, i).Some?
    ensures |r| == k + 1
  {
    seq(k + 1, j requires 0 <= j <= k => Cf(s, i0 + j).value)
  }

  /** The present flows of a window are its flows' values. */
  lemma ValuesOf(cfs: seq<Option<real>>, fs: seq<real>, k: nat)
    requires k < |cfs| && |fs| == k + 1
    requires forall j :: 0 <= j <= k ==> cfs[j].Some? && cfs[j].value == fs[j]
    ensures Values(cfs[..k + 1]) == fs
  {
    var vs := Values(cfs[..k + 1]);
    forall j | 0 <= j <= k ensures vs[j] == fs[j] {
      assert cfs[..k + 1][j] == cfs[j];
    }
  }

  /**
   * With inflows only, the average capital of a day lies between the market
   * value before the window and that value plus every inflow so far.
   */
  lemma DietzAvcInflows(s: Series, from: int, to: int, k: nat)
    requires ValidSeries(s) && InWindow(s, from, to) && First(s) < from && k <= to - from
    requires forall i :: from - First(s) <= i <= to - First(s) ==> Cf(s, i).Some? && Cf(s, i).value >= 0.0
    ensures s.mvs[from - First(s) - 1] <= DietzAvc(s, from, to).value[k].value
    ensures DietzAvc(s, from, to).value[k].value <= s.mvs[from - First(s) - 1] + Sum(Flows(s, from - First(s), k))
  {
    var i0 := from - First(s);
    var ids := IDates(s, from, to).value;
    var cfs := WindowCfs(s, ids);
    var fs := Flows(s, i0, k);
    forall j | 0 <= j <= k
      ensures cfs[j] == Cf(s, i0 + j) && cfs[j].Some? && cfs[j].value >= 0.0 && cfs[j].value == fs[j]
      ensures ids[0] <= ids[j] <= ids[k]
    {
      assert ids[j] == i0 + j;
    }
    WeightedCfBounds(ids, cfs, k);
    ValuesOf(cfs, fs, k);
    var w := WeightedCf(ids, cfs, k).value;
    DietzAvcValue(s, from, to, k, w);
  }

  /** The market values from the day before the window to its last day. */
  function WindowValues(s: Series, from: int, to: int): (r: seq<real>)
    requires ValidSeries(s) && InWindow(s, from, to) && First(s) < from
    ensures |r| == to - from + 2
    ensures forall j :: 0 <= j < |r| ==> r[j] == s.mvs[from - First(s) - 1 + j]
  {
    s.mvs[from - First(s) - 1..to - First(s) + 1]
  }

  /**
   * Over a window without flows, and with no zero market value from the day
   * before it on, the cumulative time-weighted return is the growth of the
   * market value less one.
   */
  lemma TwrrNoFlows(s: Series, from: int, to: int, k: nat)
    requires ValidSeries(s) && InWindow(s, from, to) && First(s) < from && k <= to - from
    requires forall i :: from - First(s) <= i <= to - First(s) ==> Cf(s, i) == Some(0.0)
    requires forall j :: 0 <= j <= to - from ==> WindowValues(s, from, to)[j] != 0.0
    ensures LessOne(Growth(TwrrDr(s, from, to).value[..k + 1]))
              == Some(WindowValues(s, from, to)[k + 1] / WindowValues(s, from, to)[0] - 1.0)
  {
    var drs := TwrrDr(s, from, to).value;
    var vs := WindowValues(s, from, to);
    WindowGrowths(s, from, to);
    GrowthTelescopes(vs, drs, k);
    LessOneValue(Growth(drs[..k + 1]), vs[k + 1] / vs[0]);
  }

  /** Each daily return of such a window is the growth of the market value that day, less one. */
  lemma WindowGrowths(s: Series, from: int, to: int)
    requires ValidSeries(s) && InWindow(s, from, to) && First(s) < from
    requires forall i :: from - First(s) <= i <= to - First(s) ==> Cf(s, i) == Some(0.0)
    requires forall j :: 0 <= j <= to - from ==> WindowValues(s, from, to)[j] != 0.0
    ensures var drs, vs := TwrrDr(s, from, to).value, WindowValues(s, from, to);
            forall j :: 0 <= j < |drs| ==> drs[j].Some? && 1.0 + drs[j].value == vs[j + 1] / vs[j]
  {
    var i0 := from - First(s);
    var drs := TwrrDr(s, from, to).value;
    var vs := WindowValues(s, from, to);
    forall j | 0 <= j < |drs| ensures drs[j].Some? && 1.0 + drs[j].value == vs[j + 1] / vs[j] {
      assert vs[j] == s.mvs[i0 + j - 1] && vs[j + 1] == s.mvs[i0 + j];
      DayGrowth(s, i0 + j);
    }
  }

  /** Over the same window Modified Dietz is the growth of the market value less one as well. */
  lemma DietzNoFlows(s: Series, from: int, to: int, k: nat)
    requires ValidSeries(s) && InWindow(s, from, to) && First(s) < from && k <= to - from
    requires forall i :: from - First(s) <= i <= to - First(s) ==> Cf(s, i) == Some(0.0)
    requires WindowValues(s, from, to)[0] != 0.0
    ensures Ratio(Some(Sum(s.pls[from - First(s)..from - First(s) + k + 1])), DietzAvc(s, from, to).value[k])
              == Some(WindowValues(s, from, to)[k + 1] / WindowValues(s, from, to)[0] - 1.0)
  {
    var vs := WindowValues(s, from, to);
    var pls := s.pls[from - First(s)..from - First(s) + k + 1];
    forall j | 0 <= j <= k ensures pls[j] == vs[j + 1] - vs[j] {
      assert Cf(s, from - First(s) + j) == Some(0.0);
    }
    GainsTelescope(vs[..k + 2], pls, k);
    assert pls[..k + 1] == pls;
    DietzAvcNoFlows(s, from, to, k);
    RatioOfGain(Sum(pls), DietzAvc(s, from, to).value[k], vs[0], vs[k + 1]);
  }

  /**
   * Without flows the two measures agree: what `dietz` and `twrr_cr` return
   * for a day of such a window is the same.
   */
  lemma DietzMatchesTwrr(s: Series, from: int, to: int, k: nat)
    requires ValidSeries(s) && InWindow(s, from, to) && First(s) < from && k <= to - from
    requires forall i :: from - First(s) <= i <= to - First(s) ==> Cf(s, i) == Some(0.0)
    requires forall j :: 0 <= j <= to - from ==> WindowValues(s, from, to)[j] != 0.0
    ensures Ratio(Some(Sum(s.pls[from - First(s)..from - First(s) + k + 1])), DietzAvc(s, from, to).value[k])
              == LessOne(Growth(TwrrDr(s, from, to).value[..k + 1]))
  {
    TwrrNoFlows(s, from, to, k);
    DietzNoFlows(s, from, to, k);
  }

  // ---------------------------------------------------------------------------
  // The series of the `ok_with_zero_begin` test: observed days -1, 0, 1, 2, 50
  // and 100, starting with two days of zero market value.

  /** The four days the test's windows look at: days -1, 0, 1 and 2 at positions 0 to 3. */
  predicate ZeroBeginStart(s: Series) {
    && ValidSeries(s) && First(s) == -1 && Last(s) == 100
    && s.mvs[0] == 0.0 && s.mvs[1] == 0.0 && s.mvs[2] == 110.0 && s.mvs[3] == 50.0
    && s.pls[0] == 0.0 && s.pls[1] == 0.0 && s.pls[2] == 10.0 && s.pls[3] == 5.0
  }

  /** Densifying the test's observations gives a series over days -1 to 100 that opens as observed. */
  lemma ZeroBeginSeries(s: Series)
    requires Densified([-1, 0, 1, 2, 50, 100], [0.0, 0.0, 110.0, 50.0, 205.0, 305.0],
                       [0.0, 0.0, 10.0, 5.0, 0.0, 0.0], s)
    ensures ZeroBeginStart(s)
  {
    var dates, mvs, pls := [-1, 0, 1, 2, 50, 100], [0.0, 0.0, 110.0, 50.0, 205.0, 305.0], [0.0, 0.0, 10.0, 5.0, 0.0, 0.0];
    var n := |s.dates|;
    assert s.dates[0] <= dates[0] && s.dates[0] in dates;
    assert dates[5] <= s.dates[n - 1] && s.dates[n - 1] in dates;
    assert n == 102;
    assert dates[0] == -1 && dates[1] == 0 && dates[2] == 1 && dates[3] == 2;
    forall j | 0 <= j < 4
      ensures s.mvs[dates[j] + 1] == mvs[j] && s.pls[dates[j] + 1] == pls[j]
    {
    }
  }

  /**
   * Day 1 brings in 100 (110 at the close, 10 of it P&L, from nothing); day 0
   * has no capital, so no return, and day 1 returns 10 on 100.
   */
  lemma ZeroBeginReturns(s: Series)
    requires ZeroBeginStart(s)
    ensures Cf(s, 2) == Some(100.0)
    ensures TwrrDr(s, 0, 1).Ok? && TwrrDr(s, 0, 1).value == [None, Some(0.1)]
  {
    assert Capital(s, 1) == 0.0;
    assert Capital(s, 2) == 100.0;
    assert |TwrrDr(s, 0, 1).value| == 2;
  }

  /** Over a one-day window the weighted flow is that day's flow times its weight. */
  lemma WeightedCfOneDay(ids: seq<nat>, cfs: seq<Option<real>>)
    requires |ids| == 1 && |cfs| == 1 && cfs[0].Some?
    ensures WeightedCf(ids, cfs, 0) == Some(Weighted(ids[0], ids[0], cfs[0].value, 1))
  {
    assert ids[..1] == ids && cfs[..1] == cfs;
    var vs := Values(cfs);
    assert vs == [cfs[0].value] && vs[..0] == [] && ids[..0] == [];
    assert WeightedSum(ids, vs, ids[0], 1) == Weighted(ids[0], ids[0], cfs[0].value, 1);
    AnyMissingIff(cfs);
  }

  /** The average capital of a one-day window after the first day. */
  lemma OneDayAverageCapital(s: Series, day: int, cf: real)
    requires ValidSeries(s) && First(s) < day <= Last(s)
    requires Cf(s, day - First(s)) == Some(cf)
    ensures DietzAvc(s, day, day).Ok? && |DietzAvc(s, day, day).value| == 1
    ensures DietzAvc(s, day, day).value[0].Some?
    ensures DietzAvc(s, day, day).value[0].value
            == s.mvs[day - First(s) - 1] + Weighted(day - First(s), day - First(s), cf, 1)
  {
    var i := day - First(s);
    var ids := IDates(s, day, day).value;
    assert ids == [i];
    assert WindowCfs(s, ids) == [Some(cf)];
    WeightedCfOneDay(ids, WindowCfs(s, ids));
    DietzAvcValue(s, day, day, 0, Weighted(i, i, cf, 1));
  }

  /** An inflow counts from the start of its day and an outflow from its end. */
  lemma ZeroBeginAverageCapital(s: Series)
    requires ZeroBeginStart(s)
    ensures DietzAvc(s, 1, 1).Ok? && DietzAvc(s, 1, 1).value == [Some(100.0)]
    ensures DietzAvc(s, 2, 2).Ok? && DietzAvc(s, 2, 2).value == [Some(110.0)]
  {
    OneDayAverageCapital(s, 1, 100.0);
    assert Weighted(2, 2, 100.0, 1) == 100.0;
    OneDayAverageCapital(s, 2, -65.0);
    assert Weighted(3, 3, -65.0, 1) == 0.0;
  }

  /** Day 0 has no average capital, so no Dietz return; day 1 returns 10 on 100. */
  lemma ZeroBeginDietz(s: Series)
    requires ZeroBeginStart(s)
    ensures DietzAvc(s, 0, 0).Ok? && |DietzAvc(s, 0, 0).value| == 1
    ensures Ratio(Some(Sum(s.pls[1..2])), DietzAvc(s, 0, 0).value[0]) == None
    ensures DietzAvc(s, 1, 1).Ok? && |DietzAvc(s, 1, 1).value| == 1
    ensures Ratio(Some(Sum(s.pls[2..3])), DietzAvc(s, 1, 1).value[0]) == Some(0.1)
  {
    OneDayAverageCapital(s, 0, 0.0);
    assert Weighted(1, 1, 0.0, 1) == 0.0;
    ZeroBeginAverageCapital(s);
    assert s.pls[2..3] == [10.0];
    SumCons(10.0, []);
  }

  // ---------------------------------------------------------------------------
  // The `twrr_work` and `dietz_ok` tests: windows without flows, where both
  // measures give the growth of the market value.

  /** The `twrr_work` series from day 2: a window without flows. */
  predicate TwrrWorkSeries(s: Series) {
    && s.dates == [1, 2, 3, 4, 5]
    && s.mvs == [100.0, 100.0, 102.0, 103.0, 104.0] && s.pls == [0.0, 0.0, 2.0, 1.0, 1.0]
  }

  /** From day 2 the `twrr_work` daily returns are 0, 2/100, 1/102 and 1/103. */
  lemma TwrrWorkDaily(s: Series)
    requires TwrrWorkSeries(s)
    ensures TwrrDr(s, 2, 5).Ok? && |TwrrDr(s, 2, 5).value| == 4
    ensures var drs := TwrrDr(s, 2, 5).value;
            && drs[0] == Some(0.0) && drs[1] == Some(2.0 / 100.0)
            && drs[2] == Some(1.0 / 102.0) && drs[3] == Some(1.0 / 103.0)
  {
    assert ValidSeries(s) && First(s) == 1;
    assert Capital(s, 1) == 100.0 && Capital(s, 2) == 100.0;
    assert Capital(s, 3) == 102.0 && Capital(s, 4) == 103.0;
  }

  /** From day 2 the `twrr_work` cumulative returns are 0, 0.02, 0.03 and 0.04. */
  lemma TwrrWorkCumulative(s: Series, k: nat)
    requires TwrrWorkSeries(s) && k < 4
    ensures LessOne(Growth(TwrrDr(s, 2, 5).value[..k + 1])) == Some([0.0, 0.02, 0.03, 0.04][k])
  {
    assert ValidSeries(s) && First(s) == 1 && Last(s) == 5;
    forall i | 1 <= i <= 4 ensures Cf(s, i) == Some(0.0) {
    }
    assert WindowValues(s, 2, 5) == s.mvs;
    TwrrNoFlows(s, 2, 5, k);
  }

  /** The `dietz_ok` series: days 0 to 7, with days 1 to 4 filled from day 0. */
  lemma DietzOkSeries(s: Series)
    requires Densified([0, 5, 6, 7], [100.0, 102.0, 103.0, 104.0], [0.0, 2.0, 1.0, 1.0], s)
    ensures ValidSeries(s) && First(s) == 0 && Last(s) == 7
    ensures s.mvs == [100.0, 100.0, 100.0, 100.0, 100.0, 102.0, 103.0, 104.0]
    ensures s.pls == [0.0, 0.0, 0.0, 0.0, 0.0, 2.0, 1.0, 1.0]
  {
    var dates, mvs, pls := [0, 5, 6, 7], [100.0, 102.0, 103.0, 104.0], [0.0, 2.0, 1.0, 1.0];
    var n := |s.dates|;
    assert s.dates[0] <= dates[0] && s.dates[0] in dates;
    assert dates[3] <= s.dates[n - 1] && s.dates[n - 1] in dates;
    assert n == 8;
    assert dates[0] == 0 && dates[1] == 5 && dates[2] == 6 && dates[3] == 7;
    forall j | 0 <= j < 4
      ensures s.mvs[dates[j]] == mvs[j] && s.pls[dates[j]] == pls[j]
    {
    }
    assert s.dates[1] == 1 && s.dates[1] !in dates;
    assert s.mvs[1] == 100.0 && s.pls[1] == 0.0;
    assert s.dates[2] == 2 && s.dates[2] !in dates;
    assert s.mvs[2] == 100.0 && s.pls[2] == 0.0;
    assert s.dates[3] == 3 && s.dates[3] !in dates;
    assert s.mvs[3] == 100.0 && s.pls[3] == 0.0;
    assert s.dates[4] == 4 && s.dates[4] !in dates;
    assert s.mvs[4] == 100.0 && s.pls[4] == 0.0;
  }

  /** From day 4 the average capital stays 100 and the Dietz return runs 0, 0.02, 0.03, 0.04. */
  lemma DietzOkResults(s: Series)
    requires ValidSeries(s) && First(s) == 0 && Last(s) == 7
    requires s.mvs == [100.0, 100.0, 100.0, 100.0, 100.0, 102.0, 103.0, 104.0]
    requires s.pls == [0.0, 0.0, 0.0, 0.0, 0.0, 2.0, 1.0, 1.0]
    ensures DietzAvc(s, 4, 7).Ok? && |DietzAvc(s, 4, 7).value| == 4
    ensures forall k :: 0 <= k < 4 ==> DietzAvc(s, 4, 7).value[k] == Some(100.0)
    ensures forall k :: 0 <= k < 4 ==>
              Ratio(Some(Sum(s.pls[4..4 + k + 1])), DietzAvc(s, 4, 7).value[k]) == Some([0.0, 0.02, 0.03, 0.04][k])
  {
    forall i | 4 <= i <= 7 ensures Cf(s, i) == Some(0.0) {
    }
    var vs := WindowValues(s, 4, 7);
    assert vs == s.mvs[3..];
    forall k | 0 <= k < 4 ensures DietzAvc(s, 4, 7).value[k] == Some(100.0) {
      DietzAvcNoFlows(s, 4, 7, k);
    }
    forall k | 0 <= k < 4
      ensures Ratio(Some(Sum(s.pls[4..4 + k + 1])), DietzAvc(s, 4, 7).value[k]) == Some([0.0, 0.02, 0.03, 0.04][k])
    {
      DietzNoFlows(s, 4, 7, k);
    }
  }
}
