/**
 * The portfolio return engine: a daily series of market values and P&L on
 * consecutive integer day numbers, densified from sparse observations, with
 * daily and linked time-weighted returns and Modified Dietz returns over a
 * window of days.
 */
module Rtn {
  import opened Wrappers
  import opened Search
  import opened Sums

  /** The engine's failures, one per message it returns. */
  datatype RtnError = DuplicateDates | FromOutOfRange | ToOutOfRange | FromAfterTo | NoMv0

  function Message(e: RtnError): string {
    match e
    case DuplicateDates => "dates contain duplicate"
    case FromOutOfRange => "from is out range"
    case ToOutOfRange => "to is out range"
    case FromAfterTo => "from should be equal or smaller than to"
    case NoMv0 => "can't fetch mv0"
  }

  // ---------------------------------------------------------------------------
  // The observation map of `new`: a BTreeMap from day to (mv, pl), represented
  // by its entries in key order.

  datatype Obs = Obs(date: int, mv: real, pl: real)

  predicate SortedObs(os: seq<Obs>) {
    forall i, j :: 0 <= i < j < |os| ==> os[i].date < os[j].date
  }

  /** `BTreeMap::get`. */
  function Find(os: seq<Obs>, d: int): Option<Obs> {
    if os == [] then None
    else if os[0].date == d then Some(os[0])
    else Find(os[1..], d)
  }

  /** `BTreeMap::insert`: replace the entry at o.date, or add o in its sorted place. */
  function InsertObs(os: seq<Obs>, o: Obs): seq<Obs> {
    if os == [] then [o]
    else if os[0].date == o.date then [o] + os[1..]
    else if o.date < os[0].date then [o] + os
    else [os[0]] + InsertObs(os[1..], o)
  }

  /** The keys in order: `data.keys().cloned().collect()`. */
  function KeysOf(os: seq<Obs>): seq<int> {
    if os == [] then [] else [os[0].date] + KeysOf(os[1..])
  }

  lemma SortedTail(os: seq<Obs>)
    requires SortedObs(os) && |os| > 0
    ensures SortedObs(os[1..])
  {
    forall i | 0 <= i < |os| - 1 ensures os[1..][i] == os[i + 1] {
    }
  }

  lemma {:induction false} KeysOfAt(os: seq<Obs>)
    ensures |KeysOf(os)| == |os|
    ensures forall i :: 0 <= i < |os| ==> KeysOf(os)[i] == os[i].date
  {
    if os != [] {
      KeysOfAt(os[1..]);
      assert forall i :: 1 <= i < |os| ==> KeysOf(os)[i] == KeysOf(os[1..])[i - 1];
    }
  }

  /** Sorted entries have strictly increasing keys, so `binary_search` applies. */
  lemma KeysIncreasing(os: seq<Obs>)
    requires SortedObs(os)
    ensures StrictlyIncreasing(KeysOf(os))
  {
    KeysOfAt(os);
  }

  /** A found entry carries the key that was asked for and is one of the entries. */
  lemma {:induction false} FindIn(os: seq<Obs>, d: int)
    ensures Find(os, d).Some? ==> Find(os, d).value.date == d && Find(os, d).value in os
  {
    if os != [] && os[0].date != d {
      FindIn(os[1..], d);
    }
  }

  /** In a sorted map the entry at position i is what a lookup of its key returns. */
  lemma {:induction false} FindAt(os: seq<Obs>, i: nat)
    requires SortedObs(os) && i < |os|
    ensures Find(os, os[i].date) == Some(os[i])
  {
    if i > 0 {
      SortedTail(os);
      FindAt(os[1..], i - 1);
    }
  }

  /** A key below every stored key stays below every key after an insertion above it. */
  lemma {:induction false} InsertObsAbove(os: seq<Obs>, o: Obs, lo: int)
    requires lo < o.date && forall i :: 0 <= i < |os| ==> lo < os[i].date
    ensures forall i :: 0 <= i < |InsertObs(os, o)| ==> lo < InsertObs(os, o)[i].date
  {
    if os != [] && os[0].date != o.date && !(o.date < os[0].date) {
      InsertObsAbove(os[1..], o, lo);
      assert InsertObs(os, o) == [os[0]] + InsertObs(os[1..], o);
    }
  }

  lemma {:induction false} InsertObsSorted(os: seq<Obs>, o: Obs)
    requires SortedObs(os)
    ensures SortedObs(InsertObs(os, o))
  {
    if os == [] {
    } else if os[0].date == o.date {
      SortedTail(os);
      var r := [o] + os[1..];
      forall i | 1 <= i < |r| ensures r[i] == os[i] {
      }
    } else if o.date < os[0].date {
      var r := [o] + os;
      forall i | 1 <= i < |r| ensures r[i] == os[i - 1] {
      }
    } else {
      SortedTail(os);
      InsertObsSorted(os[1..], o);
      InsertObsAbove(os[1..], o, os[0].date);
      var rest := InsertObs(os[1..], o);
      var r := [os[0]] + rest;
      forall i | 1 <= i < |r| ensures r[i] == rest[i - 1] {
      }
    }
  }

  /** After inserting, o.date maps to o and every other key keeps its entry. */
  lemma {:induction false} InsertObsFind(os: seq<Obs>, o: Obs, d: int)
    ensures Find(InsertObs(os, o), d) == if d == o.date then Some(o) else Find(os, d)
  {
    if os != [] && os[0].date != o.date && !(o.date < os[0].date) {
      InsertObsFind(os[1..], o, d);
    }
  }

  /** The keys after an insertion are the old keys and o.date. */
  lemma {:induction false} InsertObsKeys(os: seq<Obs>, o: Obs, x: Obs)
    ensures x in InsertObs(os, o) ==> x == o || x in os
  {
    if os != [] && os[0].date != o.date && !(o.date < os[0].date) {
      InsertObsKeys(os[1..], o, x);
    }
  }

  // ---------------------------------------------------------------------------
  // The series built by `new`.

  /** Day numbers, market values and P&L, one of each per day. */
  datatype Series = Series(dates: seq<int>, mvs: seq<real>, pls: seq<real>)

  /** Every day from the first to the last, each exactly once. */
  predicate Consecutive(ds: seq<int>) {
    forall k :: 0 <= k < |ds| ==> ds[k] == ds[0] + k
  }

  /** What every series `new` returns satisfies. */
  predicate ValidSeries(s: Series) {
    && |s.dates| > 0
    && |s.mvs| == |s.dates|
    && |s.pls| == |s.dates|
    && Consecutive(s.dates)
  }

  predicate Distinct(ds: seq<int>) {
    forall a, b :: 0 <= a < b < |ds| ==> ds[a] != ds[b]
  }

  /**
   * The series densifies the observations: it covers every day from the
   * earliest to the latest observed day, observed days carry their
   * observation, and a day without one repeats the previous day's market
   * value with zero P&L.
   */
  ghost predicate Densified(dates: seq<int>, mvs: seq<real>, pls: seq<real>, s: Series)
    requires |mvs| == |dates| && |pls| == |dates|
  {
    && ValidSeries(s)
    && (forall j :: 0 <= j < |dates| ==> s.dates[0] <= dates[j] <= s.dates[|s.dates| - 1])
    && s.dates[0] in dates
    && s.dates[|s.dates| - 1] in dates
    && (forall j :: 0 <= j < |dates| ==>
          s.mvs[dates[j] - s.dates[0]] == mvs[j] && s.pls[dates[j] - s.dates[0]] == pls[j])
    && (forall k {:trigger s.dates[k]} :: 0 <= k < |s.dates| && s.dates[k] !in dates ==>
          0 < k && s.mvs[k] == s.mvs[k - 1] && s.pls[k] == 0.0)
  }

  /** What the first loop of `new` keeps: the first i observations are stored, under their own days. */
  ghost predicate Stored(dates: seq<int>, mvs: seq<real>, pls: seq<real>, i: nat, data: seq<Obs>)
    requires |mvs| == |dates| && |pls| == |dates| && i <= |dates|
  {
    && SortedObs(data)
    && Distinct(dates[..i])
    && (forall j :: 0 <= j < i ==> Find(data, dates[j]) == Some(Obs(dates[j], mvs[j], pls[j])))
    && (forall x :: x in data ==> x.date in dates[..i])
  }

  /** A day already in the map is a repeated day. */
  lemma Duplicate(dates: seq<int>, mvs: seq<real>, pls: seq<real>, i: nat, data: seq<Obs>)
    requires |mvs| == |dates| && |pls| == |dates| && i < |dates|
    requires Stored(dates, mvs, pls, i, data)
    requires Find(data, dates[i]).Some?
    ensures !Distinct(dates)
  {
    FindIn(data, dates[i]);
    assert dates[i] in dates[..i];
    var j :| 0 <= j < i && dates[..i][j] == dates[i];
    assert dates[j] == dates[i];
  }

  /** Storing a new day's observation extends what the loop keeps by one. */
  lemma StoreStep(dates: seq<int>, mvs: seq<real>, pls: seq<real>, i: nat, data: seq<Obs>)
    requires |mvs| == |dates| && |pls| == |dates| && i < |dates|
    requires Stored(dates, mvs, pls, i, data)
    requires Find(data, dates[i]).None?
    ensures Stored(dates, mvs, pls, i + 1, InsertObs(data, Obs(dates[i], mvs[i], pls[i])))
  {
    var o := Obs(dates[i], mvs[i], pls[i]);
    var next := InsertObs(data, o);
    InsertObsSorted(data, o);
    assert dates[..i + 1] == dates[..i] + [dates[i]];
    assert forall j :: 0 <= j < i ==> dates[j] != dates[i];
    forall j | 0 <= j < i + 1
      ensures Find(next, dates[j]) == Some(Obs(dates[j], mvs[j], pls[j]))
    {
      InsertObsFind(data, o, dates[j]);
    }
    forall x | x in next
      ensures x.date in dates[..i + 1]
    {
      InsertObsKeys(data, o, x);
    }
  }

  /** The position of the latest entry at or before day d, or -1: the entry whose values day d carries. */
  function LatestAt(data: seq<Obs>, d: int): int {
    if data == [] then -1
    else if data[|data| - 1].date <= d then |data| - 1
    else LatestAt(data[..|data| - 1], d)
  }

  lemma SortedPrefix(os: seq<Obs>)
    requires SortedObs(os) && |os| > 0
    ensures SortedObs(os[..|os| - 1])
  {
  }

  /** From the first day on, the latest entry brackets d between its day and the next entry's. */
  lemma {:induction false} LatestBounds(data: seq<Obs>, d: int)
    requires SortedObs(data) && |data| > 0 && data[0].date <= d
    ensures 0 <= LatestAt(data, d) < |data|
    ensures data[LatestAt(data, d)].date <= d
    ensures LatestAt(data, d) + 1 < |data| ==> d < data[LatestAt(data, d) + 1].date
  {
    if data[|data| - 1].date > d {
      SortedPrefix(data);
      LatestBounds(data[..|data| - 1], d);
    }
  }

  /** The bracket determines the latest entry. */
  lemma {:induction false} LatestUnique(data: seq<Obs>, d: int, h: nat)
    requires SortedObs(data) && h < |data| && data[h].date <= d
    requires h + 1 < |data| ==> d < data[h + 1].date
    ensures LatestAt(data, d) == h
  {
    if h < |data| - 1 {
      SortedPrefix(data);
      LatestUnique(data[..|data| - 1], d, h);
    }
  }

  /** `binary_search` on the keys finds the latest entry: itself, or the one before the insertion point. */
  lemma SearchLatest(data: seq<Obs>, d: int)
    requires SortedObs(data) && StrictlyIncreasing(KeysOf(data)) && |data| > 0 && data[0].date <= d
    ensures BinarySearch(KeysOf(data), d).Found? ==>
              LatestAt(data, d) == BinarySearch(KeysOf(data), d).index
    ensures BinarySearch(KeysOf(data), d).NotFound? ==>
              && 0 < BinarySearch(KeysOf(data), d).insertAt
              && LatestAt(data, d) == BinarySearch(KeysOf(data), d).insertAt - 1
  {
    KeysOfAt(data);
    match BinarySearch(KeysOf(data), d)
    case Found(i) =>
      LatestUnique(data, d, i);
    case NotFound(i) =>
      assert data[0].date < d;
      LatestUnique(data, d, i - 1);
  }

  /** Day d got the market value of its latest observation, and its P&L only on an observed day. */
  ghost predicate Filled(data: seq<Obs>, d: int, mv: real, pl: real) {
    var h := LatestAt(data, d);
    && 0 <= h < |data|
    && mv == data[h].mv
    && pl == if data[h].date == d then data[h].pl else 0.0
  }

  ghost predicate AllFilled(data: seq<Obs>, ds: seq<int>, mvs: seq<real>, pls: seq<real>) {
    && |mvs| == |ds| && |pls| == |ds|
    && forall k {:trigger Filled(data, ds[k], mvs[k], pls[k])} ::
         0 <= k < |ds| ==> Filled(data, ds[k], mvs[k], pls[k])
  }

  lemma FilledSnoc(data: seq<Obs>, ds: seq<int>, mvs: seq<real>, pls: seq<real>, d: int, mv: real, pl: real)
    requires AllFilled(data, ds, mvs, pls) && Filled(data, d, mv, pl)
    ensures AllFilled(data, ds + [d], mvs + [mv], pls + [pl])
  {
    var ds', mvs', pls' := ds + [d], mvs + [mv], pls + [pl];
    forall k | 0 <= k < |ds'| ensures Filled(data, ds'[k], mvs'[k], pls'[k]) {
      if k < |ds| {
        assert ds'[k] == ds[k] && mvs'[k] == mvs[k] && pls'[k] == pls[k];
      }
    }
  }

  lemma SliceSnoc(ds: seq<int>, k: nat)
    requires k < |ds|
    ensures ds[..k + 1] == ds[..k] + [ds[k]]
  {
  }

  lemma SliceAll(ds: seq<int>)
    ensures ds[..|ds|] == ds
  {
  }

  /** A day that is a key takes that key's entry. */
  lemma FillFound(data: seq<Obs>, d: int)
    requires SortedObs(data) && |data| > 0 && data[0].date <= d
    requires StrictlyIncreasing(KeysOf(data))
    requires BinarySearch(KeysOf(data), d).Found?
    ensures Find(data, KeysOf(data)[BinarySearch(KeysOf(data), d).index]).Some?
    ensures var v := Find(data, KeysOf(data)[BinarySearch(KeysOf(data), d).index]).value;
            Filled(data, d, v.mv, v.pl)
  {
    KeysOfAt(data);
    var i := BinarySearch(KeysOf(data), d).index;
    SearchLatest(data, d);
    FindAt(data, i);
  }

  /** A day between two keys takes the earlier key's market value and zero P&L. */
  lemma FillNotFound(data: seq<Obs>, d: int)
    requires SortedObs(data) && |data| > 0 && data[0].date <= d
    requires StrictlyIncreasing(KeysOf(data))
    requires BinarySearch(KeysOf(data), d).NotFound?
    ensures 0 < BinarySearch(KeysOf(data), d).insertAt <= |KeysOf(data)|
    ensures Find(data, KeysOf(data)[BinarySearch(KeysOf(data), d).insertAt - 1]).Some?
    ensures var v := Find(data, KeysOf(data)[BinarySearch(KeysOf(data), d).insertAt - 1]).value;
            Filled(data, d, v.mv, 0.0)
  {
    KeysOfAt(data);
    var i := BinarySearch(KeysOf(data), d).insertAt;
    SearchLatest(data, d);
    assert 0 < i <= |data| && KeysOf(data)[i - 1] == data[i - 1].date;
    FindAt(data, i - 1);
    assert LatestAt(data, d) == i - 1 && data[i - 1].date != d;
  }

  /** ds is every day from the first key of data to the last. */
  predicate Spans(data: seq<Obs>, ds: seq<int>)
    requires |data| > 0
  {
    && |ds| == data[|data| - 1].date - data[0].date + 1
    && forall k :: 0 <= k < |ds| ==> ds[k] == data[0].date + k
  }

  /** An observed day lies between the first and the last key. */
  lemma ObservedBetween(data: seq<Obs>, o: Obs)
    requires SortedObs(data) && |data| > 0
    requires Find(data, o.date) == Some(o)
    ensures data[0].date <= o.date <= data[|data| - 1].date
  {
    FindIn(data, o.date);
    var p :| 0 <= p < |data| && data[p] == o;
    assert data[0].date <= data[p].date <= data[|data| - 1].date;
  }

  /** A filled observed day carries its observation. */
  lemma ObservedFilled(data: seq<Obs>, o: Obs, mv: real, pl: real)
    requires SortedObs(data)
    requires Find(data, o.date) == Some(o)
    requires Filled(data, o.date, mv, pl)
    ensures mv == o.mv && pl == o.pl
  {
    FindIn(data, o.date);
    var p :| 0 <= p < |data| && data[p] == o;
    LatestUnique(data, o.date, p);
  }

  /** A filled day without an entry repeats the filled day before it, with zero P&L. */
  lemma GapFilled(data: seq<Obs>, d: int, mv: real, pl: real, mv': real, pl': real)
    requires SortedObs(data) && |data| > 0 && data[0].date < d
    requires forall x :: x in data ==> x.date != d
    requires Filled(data, d, mv, pl) && Filled(data, d - 1, mv', pl')
    ensures mv == mv' && pl == 0.0
  {
    LatestBounds(data, d);
    var h := LatestAt(data, d);
    assert data[h] in data;
    LatestUnique(data, d - 1, h);
  }

  /** Every observed day lies in the series and carries its observation. */
  lemma DensifyObserved(dates: seq<int>, mvs: seq<real>, pls: seq<real>, data: seq<Obs>, s: Series)
    requires |mvs| == |dates| && |pls| == |dates|
    requires SortedObs(data) && |data| > 0
    requires forall j :: 0 <= j < |dates| ==> Find(data, dates[j]) == Some(Obs(dates[j], mvs[j], pls[j]))
    requires Spans(data, s.dates)
    requires AllFilled(data, s.dates, s.mvs, s.pls)
    ensures forall j :: 0 <= j < |dates| ==> s.dates[0] <= dates[j] <= s.dates[|s.dates| - 1]
    ensures forall j :: 0 <= j < |dates| ==>
              s.mvs[dates[j] - s.dates[0]] == mvs[j] && s.pls[dates[j] - s.dates[0]] == pls[j]
  {
    forall j | 0 <= j < |dates|
      ensures s.dates[0] <= dates[j] <= s.dates[|s.dates| - 1]
      ensures s.mvs[dates[j] - s.dates[0]] == mvs[j] && s.pls[dates[j] - s.dates[0]] == pls[j]
    {
      var o := Obs(dates[j], mvs[j], pls[j]);
      ObservedBetween(data, o);
      var k := dates[j] - s.dates[0];
      assert s.dates[k] == dates[j];
      assert Filled(data, s.dates[k], s.mvs[k], s.pls[k]);
      ObservedFilled(data, o, s.mvs[k], s.pls[k]);
    }
  }

  /** Every day without an observation repeats the day before, with zero P&L. */
  lemma DensifyGaps(dates: seq<int>, data: seq<Obs>, s: Series)
    requires SortedObs(data) && |data| > 0
    requires forall x :: x in data ==> x.date in dates
    requires Spans(data, s.dates)
    requires AllFilled(data, s.dates, s.mvs, s.pls)
    ensures forall k {:trigger s.dates[k]} :: 0 <= k < |s.dates| && s.dates[k] !in dates ==>
              0 < k && s.mvs[k] == s.mvs[k - 1] && s.pls[k] == 0.0
  {
    forall k | 0 <= k < |s.dates| && s.dates[k] !in dates
      ensures 0 < k && s.mvs[k] == s.mvs[k - 1] && s.pls[k] == 0.0
    {
      assert data[0] in data;
      assert Filled(data, s.dates[k], s.mvs[k], s.pls[k]);
      assert Filled(data, s.dates[k - 1], s.mvs[k - 1], s.pls[k - 1]);
      GapFilled(data, s.dates[k], s.mvs[k], s.pls[k], s.mvs[k - 1], s.pls[k - 1]);
    }
  }

  /** The map and the filled days add up to a densified series. */
  lemma Densify(dates: seq<int>, mvs: seq<real>, pls: seq<real>, data: seq<Obs>, s: Series)
    requires |mvs| == |dates| && |pls| == |dates|
    requires SortedObs(data) && |data| > 0
    requires forall j :: 0 <= j < |dates| ==> Find(data, dates[j]) == Some(Obs(dates[j], mvs[j], pls[j]))
    requires forall x :: x in data ==> x.date in dates
    requires Spans(data, s.dates)
    requires AllFilled(data, s.dates, s.mvs, s.pls)
    ensures Densified(dates, mvs, pls, s)
  {
    assert data[0] in data && data[|data| - 1] in data;
    assert s.dates[|s.dates| - 1] == data[|data| - 1].date;
    DensifyObserved(dates, mvs, pls, data, s);
    DensifyGaps(dates, data, s);
  }

  /**
   * `Rtn::new`: store the observations by day, refusing a repeated day, then
   * walk every day from the first to the last, taking each day's observation
   * or, on a day without one, the latest market value and zero P&L.
   */
  method New(dates: seq<int>, mvs: seq<real>, pls: seq<real>) returns (r: Result<Series, RtnError>)
    requires |mvs| == |dates| && |pls| == |dates|
    requires |dates| > 0
    ensures r.Err? <==> !Distinct(dates)
    ensures r.Err? ==> r.error == DuplicateDates
    ensures r.Ok? ==> Densified(dates, mvs, pls, r.value)
  {
    var data: seq<Obs> := [];
    for i := 0 to |dates|
      invariant Stored(dates, mvs, pls, i, data)
    {
      if Find(data, dates[i]).Some? {
        Duplicate(dates, mvs, pls, i, data);
        return Err(DuplicateDates);
      }
      StoreStep(dates, mvs, pls, i, data);
      data := InsertObs(data, Obs(dates[i], mvs[i], pls[i]));
    }
    assert dates[..|dates|] == dates;
    assert Find(data, dates[0]).Some?;
    assert forall x :: x in data ==> x.date in dates;
    var series := FillDays(data);
    Densify(dates, mvs, pls, data, series);
    return Ok(series);
  }

  /**
   * The second half of `Rtn::new`: every day from the first key to the last
   * takes its own entry, or the latest market value and zero P&L.
   */
  method FillDays(data: seq<Obs>) returns (s: Series)
    requires SortedObs(data) && |data| > 0
    ensures Spans(data, s.dates)
    ensures AllFilled(data, s.dates, s.mvs, s.pls)
  {
    var keys := KeysOf(data);
    KeysOfAt(data);
    KeysIncreasing(data);
    // The key iterator is in order, so its min is the first key and its max the last.
    var minDate, maxDate := keys[0], keys[|keys| - 1];
    var days := seq(maxDate - minDate + 1, k => minDate + k);
    var outMvs: seq<real> := [];
    var outPls: seq<real> := [];
    for k := 0 to |days|
      invariant |outMvs| == k && |outPls| == k
      invariant AllFilled(data, days[..k], outMvs, outPls)
    {
      var mv: real, pl: real;
      match BinarySearch(keys, days[k]) {
        case Found(i) =>
          FillFound(data, days[k]);
          var v := Find(data, keys[i]).value;
          mv, pl := v.mv, v.pl;
        case NotFound(i) =>
          FillNotFound(data, days[k]);
          var v := Find(data, keys[i - 1]).value;
          mv, pl := v.mv, 0.0;
      }
      FilledSnoc(data, days[..k], outMvs, outPls, days[k], mv, pl);
      SliceSnoc(days, k);
      outMvs := outMvs + [mv];
      outPls := outPls + [pl];
    }
    SliceAll(days);
    return Series(days, outMvs, outPls);
  }

  /**
   * Each day of a densified series carries the market value of the latest
   * observation at or before it, and that observation's P&L only on its own day.
   */
  lemma {:induction false} HoldsLatest(dates: seq<int>, mvs: seq<real>, pls: seq<real>, s: Series, k: nat, j: nat)
    requires |mvs| == |dates| && |pls| == |dates| && Densified(dates, mvs, pls, s)
    requires k < |s.dates| && j < |dates| && dates[j] <= s.dates[k]
    requires forall i :: 0 <= i < |dates| && dates[i] <= s.dates[k] ==> dates[i] <= dates[j]
    ensures s.mvs[k] == mvs[j]
    ensures s.pls[k] == if dates[j] == s.dates[k] then pls[j] else 0.0
    decreases k
  {
    if dates[j] == s.dates[k] {
      assert dates[j] - s.dates[0] == k;
    } else {
      assert forall i :: 0 <= i < |dates| ==> dates[i] != s.dates[k];
      assert s.dates[k] !in dates;
      HoldsLatest(dates, mvs, pls, s, k - 1, j);
    }
  }

  /** The series built from days 1, 3, 4 and 5 fills day 2 from day 1. */
  lemma DensifiedExample(s: Series)
    requires Densified([1, 3, 4, 5], [100.0, 102.0, 103.0, 104.0], [0.0, 2.0, 1.0, 1.0], s)
    ensures s.dates == [1, 2, 3, 4, 5]
    ensures s.mvs == [100.0, 100.0, 102.0, 103.0, 104.0]
    ensures s.pls == [0.0, 0.0, 2.0, 1.0, 1.0]
  {
    var dates, mvs, pls := [1, 3, 4, 5], [100.0, 102.0, 103.0, 104.0], [0.0, 2.0, 1.0, 1.0];
    var n := |s.dates|;
    assert s.dates[0] <= dates[0] && s.dates[0] in dates;
    assert dates[3] <= s.dates[n - 1] && s.dates[n - 1] in dates;
    assert s.dates[n - 1] == s.dates[0] + (n - 1);
    assert n == 5;
    assert s.dates[1] == 2 && s.dates[1] !in dates;
    assert dates[0] == 1 && dates[1] == 3 && dates[2] == 4 && dates[3] == 5;
    forall j | 0 <= j < 4
      ensures s.mvs[dates[j] - 1] == mvs[j] && s.pls[dates[j] - 1] == pls[j]
    {
    }
    assert s.mvs[0] == 100.0 && s.pls[0] == 0.0;
    assert s.mvs[2] == 102.0 && s.pls[2] == 2.0;
    assert s.mvs[3] == 103.0 && s.pls[3] == 1.0;
    assert s.mvs[4] == 104.0 && s.pls[4] == 1.0;
    assert s.mvs[1] == 100.0 && s.pls[1] == 0.0;
  }

  // ---------------------------------------------------------------------------
  // Per-day quantities. Position i of the series is a `usize`; in every case a
  // position outside the series, or the day before the first, gives None.

  /** `mv`: the market value at position i. */
  function Mv(s: Series, i: nat): Option<real> {
    if i < |s.mvs| then Some(s.mvs[i]) else None
  }

  /** `mv0`: the market value on the day before, None at the first position. */
  function Mv0(s: Series, i: nat): Option<real> {
    if i == 0 then None else Mv(s, i - 1)
  }

  /** `pl`: the P&L at position i. */
  function Pl(s: Series, i: nat): Option<real> {
    if i < |s.pls| then Some(s.pls[i]) else None
  }

  /** `cf`: the net flow of day i, what the change in market value leaves unexplained by P&L. */
  function Cf(s: Series, i: nat): (r: Option<real>)
    ensures r.Some? <==> 0 < i < |s.mvs| && i < |s.pls|
    ensures r.Some? ==> s.mvs[i] == s.mvs[i - 1] + r.value + s.pls[i]
  {
    match (Mv(s, i), Mv0(s, i), Pl(s, i))
    case (Some(mv), Some(mv0), Some(pl)) => Some(mv - mv0 - pl)
    case _ => None
  }

  /** The capital at work on day i: yesterday's value plus an inflow counted at the start of the day. */
  function Capital(s: Series, i: nat): real
    requires 0 < i < |s.mvs| && i < |s.pls|
  {
    var cf := Cf(s, i).value;
    s.mvs[i - 1] + (if cf >= 0.0 then cf else 0.0)
  }

  /**
   * `dr`: the daily return, P&L over the capital at work. An inflow is taken
   * to arrive at the start of the day and an outflow to leave at its end; a
   * capital that is not a normal float (here: zero) gives None.
   */
  function Dr(s: Series, i: nat): (r: Option<real>)
    ensures r.Some? <==> 0 < i < |s.mvs| && i < |s.pls| && Capital(s, i) != 0.0
    ensures r.Some? ==> r.value == s.pls[i] / Capital(s, i)
    ensures r.Some? ==>
              var cf := Cf(s, i).value;
              1.0 + r.value == (s.mvs[i] - (if cf < 0.0 then cf else 0.0)) / Capital(s, i)
  {
    match Cf(s, i)
    case None => None
    case Some(cf) =>
      var cfUse := if cf >= 0.0 then cf else 0.0;
      match Mv0(s, i)
      case None => None
      case Some(mv0) =>
        var deno := mv0 + cfUse;
        if deno != 0.0 then
          match Pl(s, i)
          case None => None
          case Some(pl) => GrowthOfReturn(pl, deno); Some(pl / deno)
        else None
  }

  /** One plus p/d is (d + p)/d. */
  lemma GrowthOfReturn(p: real, d: real)
    requires d != 0.0
    ensures 1.0 + p / d == (d + p) / d
  {
    assert d / d == 1.0;
    assert p / d + d / d == (p + d) / d;
  }

  // ---------------------------------------------------------------------------
  // Windows of days.

  /** The first and the last day of a series. */
  function First(s: Series): int requires ValidSeries(s) { s.dates[0] }
  function Last(s: Series): int requires ValidSeries(s) { s.dates[|s.dates| - 1] }

  lemma ConsecutiveIncreasing(s: Series)
    requires ValidSeries(s)
    ensures StrictlyIncreasing(s.dates)
    ensures Last(s) == First(s) + |s.dates| - 1
  {
  }

  /** A day within the series sits at its offset from the first day. */
  lemma DayAt(s: Series, date: int)
    requires ValidSeries(s)
    ensures First(s) <= date <= Last(s) ==> date - First(s) < |s.dates| && s.dates[date - First(s)] == date
  {
  }

  /** `i`: the position of a day, found by binary search, None outside the series. */
  function I(s: Series, date: int): (r: Option<nat>)
    requires ValidSeries(s)
    ensures r.Some? <==> First(s) <= date <= Last(s)
    ensures r.Some? ==> r.value == date - First(s)
  {
    ConsecutiveIncreasing(s);
    DayAt(s, date);
    match BinarySearch(s.dates, date)
    case Found(k) => Some(k)
    case NotFound(_) => None
  }

  /** `Rtn::dates`: every day from `from` to `to`. */
  function Dates(from: int, to: int): (r: Result<seq<int>, RtnError>)
    ensures r.Err? <==> from > to
    ensures r.Err? ==> r.error == FromAfterTo
    ensures r.Ok? ==> |r.value| == to - from + 1 && r.value[0] == from && r.value[|r.value| - 1] == to
    ensures r.Ok? ==> forall k :: 0 < k < |r.value| ==> r.value[k] == r.value[k - 1] + 1
  {
    if from > to then Err(FromAfterTo) else Ok(seq(to - from + 1, k => from + k))
  }

  /** A window is valid when both ends are days of the series, in order. */
  predicate InWindow(s: Series, from: int, to: int)
    requires ValidSeries(s)
  {
    First(s) <= from <= to <= Last(s)
  }

  /**
   * `i_dates`: the positions of the days from `from` to `to`. The first end
   * outside the series is the error, then an inverted window.
   */
  function IDates(s: Series, from: int, to: int): (r: Result<seq<nat>, RtnError>)
    requires ValidSeries(s)
    ensures r.Ok? <==> InWindow(s, from, to)
    ensures r == Err(FromOutOfRange) <==> !(First(s) <= from <= Last(s))
    ensures r == Err(ToOutOfRange) <==> First(s) <= from <= Last(s) && !(First(s) <= to <= Last(s))
    ensures r == Err(FromAfterTo) <==> First(s) <= from <= Last(s) && First(s) <= to <= Last(s) && from > to
    ensures r.Ok? ==> |r.value| == to - from + 1
    ensures r.Ok? ==> forall k :: 0 <= k < |r.value| ==> r.value[k] == from - First(s) + k
  {
    match I(s, from)
    case None => Err(FromOutOfRange)
    case Some(iFrom) =>
      match I(s, to)
      case None => Err(ToOutOfRange)
      case Some(iTo) =>
        if iFrom > iTo then Err(FromAfterTo)
        else Ok(seq(iTo - iFrom + 1, k => iFrom + k))
  }

  /** The positions of a valid window lie within the series and carry the window's days in turn. */
  lemma WindowDays(s: Series, from: int, to: int)
    requires ValidSeries(s) && InWindow(s, from, to)
    ensures var ids := IDates(s, from, to).value;
            forall k :: 0 <= k < |ids| ==> ids[k] < |s.dates| && s.dates[ids[k]] == from + k
  {
  }

  /** `twrr_dr`: the daily return of every day of the window. */
  function TwrrDr(s: Series, from: int, to: int): (r: Result<seq<Option<real>>, RtnError>)
    requires ValidSeries(s)
    ensures r.Err? <==> IDates(s, from, to).Err?
    ensures r.Err? ==> r.error == IDates(s, from, to).error
    ensures r.Ok? ==> |r.value| == to - from + 1
    ensures r.Ok? ==> forall k :: 0 <= k < |r.value| ==> r.value[k] == Dr(s, from - First(s) + k)
  {
    match IDates(s, from, to)
    case Err(e) => Err(e)
    case Ok(ids) => Ok(seq(|ids|, k requires 0 <= k < |ids| => Dr(s, ids[k])))
  }

  // ---------------------------------------------------------------------------
  // Linking daily returns.

  /** The growth of linked returns, the product of (1 + r), or None once a return is missing. */
  function Growth(drs: seq<Option<real>>): Option<real> {
    if drs == [] then Some(1.0) else Link(Growth(drs[..|drs| - 1]), drs[|drs| - 1])
  }

  /** One more return on top of a growth factor. */
  function Link(g: Option<real>, r: Option<real>): Option<real> {
    if g.Some? && r.Some? then Some(g.value * (1.0 + r.value)) else None
  }

  /** The step of `crs`, (1 + c)(1 + r) - 1, is one more link on the growth behind c. */
  lemma LinkStep(c: real, r: real, g: Option<real>, dr: Option<real>)
    requires g.Some? && dr.Some? && c + 1.0 == g.value && r == dr.value
    ensures Link(g, dr).Some? && (c + 1.0) * (r + 1.0) - 1.0 == Link(g, dr).value - 1.0
  {
    var a, b := c + 1.0, r + 1.0;
    assert a == g.value && b == 1.0 + dr.value;
    assert a * b == g.value * (1.0 + dr.value);
  }

  /** A growth factor as a cumulative return. */
  function LessOne(g: Option<real>): Option<real> {
    match g
    case Some(v) => Some(v - 1.0)
    case None => None
  }

  /** The growth to position i links the growth to i - 1 with the i-th return. */
  lemma GrowthSnoc(drs: seq<Option<real>>, i: nat)
    requires i < |drs|
    ensures Growth(drs[..i + 1]) == Link(Growth(drs[..i]), drs[i])
  {
    assert drs[..i + 1][..i] == drs[..i];
    assert drs[..i + 1][i] == drs[i];
  }

  /**
   * `crs`: the cumulative return to each position, linking the daily returns
   * by (1 + c)(1 + r) - 1; a missing return leaves every later one missing.
   */
  method Crs(drs: seq<Option<real>>) returns (out: seq<Option<real>>)
    ensures |out| == |drs|
    ensures forall i :: 0 <= i < |drs| ==> out[i] == LessOne(Growth(drs[..i + 1]))
  {
    out := [];
    for i := 0 to |drs|
      invariant |out| == i
      invariant forall j :: 0 <= j < i ==> out[j] == LessOne(Growth(drs[..j + 1]))
    {
      GrowthSnoc(drs, i);
      var v: Option<real>;
      if i == 0 {
        assert drs[..0] == [];
        v := drs[i];
        assert v == LessOne(Growth(drs[..i + 1]));
      } else if drs[i].None? || out[i - 1].None? {
        v := None;
        assert (i - 1) + 1 == i && out[i - 1] == LessOne(Growth(drs[..i]));
      } else {
        v := Some((out[i - 1].value + 1.0) * (drs[i].value + 1.0) - 1.0);
        assert (i - 1) + 1 == i && out[i - 1] == LessOne(Growth(drs[..i]));
        LinkStep(out[i - 1].value, drs[i].value, Growth(drs[..i]), drs[i]);
        assert Growth(drs[..i + 1]) == Link(Growth(drs[..i]), drs[i]);
        assert v.value == Link(Growth(drs[..i]), drs[i]).value - 1.0;
        assert v == LessOne(Growth(drs[..i + 1]));
      }
      assert v == LessOne(Growth(drs[..i + 1]));
      out := out + [v];
    }
  }

  /** Linked returns exist exactly when every daily return does. */
  lemma {:induction false} GrowthSome(drs: seq<Option<real>>)
    ensures Growth(drs).Some? <==> forall j :: 0 <= j < |drs| ==> drs[j].Some?
  {
    if drs != [] {
      var init := drs[..|drs| - 1];
      GrowthSome(init);
      assert forall j :: 0 <= j < |init| ==> init[j] == drs[j];
    }
  }

  /** Once the cumulative return is missing it stays missing. */
  lemma GrowthMissingStays(drs: seq<Option<real>>, k: nat, i: nat)
    requires k <= i < |drs| && Growth(drs[..k + 1]).None?
    ensures Growth(drs[..i + 1]).None?
  {
    GrowthSome(drs[..k + 1]);
    var j :| 0 <= j < k + 1 && drs[..k + 1][j].None?;
    assert drs[..i + 1][j] == drs[j];
    GrowthSome(drs[..i + 1]);
  }

  /** The cumulative return to the first position is that position's return. */
  lemma CumulativeFirst(drs: seq<Option<real>>)
    requires |drs| > 0
    ensures LessOne(Growth(drs[..1])) == drs[0]
  {
    assert drs[..1][..0] == [];
    GrowthSnoc(drs, 0);
  }

  /**
   * The cumulative return to position i is (1 + c)(1 + r) - 1 from the one
   * before it, c, and the i-th return, r; None when either is missing.
   */
  lemma CumulativeStep(drs: seq<Option<real>>, i: nat)
    requires 0 < i < |drs|
    ensures LessOne(Growth(drs[..i + 1])).Some?
            <==> LessOne(Growth(drs[..i])).Some? && drs[i].Some?
    ensures LessOne(Growth(drs[..i + 1])).Some? ==>
              LessOne(Growth(drs[..i + 1])).value
              == (LessOne(Growth(drs[..i])).value + 1.0) * (drs[i].value + 1.0) - 1.0
  {
    GrowthSnoc(drs, i);
    var g := Growth(drs[..i]);
    if g.Some? && drs[i].Some? {
      LinkStep(LessOne(g).value, drs[i].value, g, drs[i]);
      assert LessOne(Growth(drs[..i + 1])).Some?;
      assert LessOne(Growth(drs[..i + 1])).value == (LessOne(g).value + 1.0) * (drs[i].value + 1.0) - 1.0;
    }
  }

  /** `twrr_cr`: the cumulative time-weighted return to every day of the window. */
  method TwrrCr(s: Series, from: int, to: int) returns (r: Result<seq<Option<real>>, RtnError>)
    requires ValidSeries(s)
    ensures r.Err? <==> IDates(s, from, to).Err?
    ensures r.Err? ==> r.error == IDates(s, from, to).error
    ensures r.Ok? ==> |r.value| == to - from + 1
    ensures r.Ok? ==> forall k :: 0 <= k < |r.value| ==>
              r.value[k] == LessOne(Growth(TwrrDr(s, from, to).value[..k + 1]))
  {
    var drs := TwrrDr(s, from, to);
    if drs.Err? {
      return Err(drs.error);
    }
    var out := Crs(drs.value);
    return Ok(out);
  }

  /** A window opening on the first day has no return that day, so no cumulative return at all. */
  lemma TwrrFromFirstDay(s: Series, to: int, k: nat)
    requires ValidSeries(s) && InWindow(s, First(s), to) && k <= to - First(s)
    ensures TwrrDr(s, First(s), to).value[0].None?
    ensures Growth(TwrrDr(s, First(s), to).value[..k + 1]).None?
  {
    var drs := TwrrDr(s, First(s), to).value;
    assert drs[..1] == [drs[0]];
    assert drs[..1][..0] == [];
    GrowthMissingStays(drs, 0, k);
  }

  // ---------------------------------------------------------------------------
  // Modified Dietz.

  /** Some flow among xs is missing. */
  predicate AnyMissing(xs: seq<Option<real>>) {
    xs != [] && (xs[0].None? || AnyMissing(xs[1..]))
  }

  lemma {:induction false} AnyMissingIff(xs: seq<Option<real>>)
    ensures AnyMissing(xs) <==> exists j :: 0 <= j < |xs| && xs[j].None?
  {
    if xs != [] {
      AnyMissingIff(xs[1..]);
      if xs[0].Some? && exists j :: 0 <= j < |xs| && xs[j].None? {
        var j :| 0 <= j < |xs| && xs[j].None?;
        assert xs[1..][j - 1].None?;
      }
    }
  }

  /**
   * The time weight of a flow on position `day` within a window ending at
   * `last` and `total` days long: the days it is invested, counting its own
   * day for an inflow (start of day) and not for an outflow (end of day).
   */
  function Weight(last: int, day: int, cf: real, total: int): real
    requires total > 0
  {
    ((last - day + (if cf > 0.0 then 1 else 0)) as real) / (total as real)
  }

  /** A flow times its weight. */
  function Weighted(last: int, day: int, cf: real, total: int): real
    requires total > 0
  {
    cf * Weight(last, day, cf, total)
  }

  /** The sum of the flows, each times its weight. */
  function WeightedSum(ids: seq<nat>, cfs: seq<real>, last: int, total: int): real
    requires |ids| == |cfs| && total > 0
  {
    if ids == [] then 0.0
    else
      var n := |ids| - 1;
      WeightedSum(ids[..n], cfs[..n], last, total) + Weighted(last, ids[n], cfs[n], total)
  }

  /** The values of flows that are all there. */
  function Values(xs: seq<Option<real>>): (r: seq<real>)
    requires forall j :: 0 <= j < |xs| ==> xs[j].Some?
  {
    seq(|xs|, j requires 0 <= j < |xs| => xs[j].value)
  }

  /**
   * `weighted_cf`: the time-weighted flows of the window's first i + 1 days,
   * or None when one of them is missing. The positions must not decrease
   * past the i-th, or the unsigned subtraction fails.
   */
  function WeightedCf(ids: seq<nat>, cfs: seq<Option<real>>, i: nat): (r: Option<real>)
    requires |ids| == |cfs| && i < |ids|
    requires forall j :: 0 <= j <= i ==> ids[j] <= ids[i]
    ensures r.Some? <==> forall j :: 0 <= j <= i ==> cfs[j].Some?
  {
    var ds, fs := ids[..i + 1], cfs[..i + 1];
    AnyMissingIff(fs);
    if AnyMissing(fs) then None
    else Some(WeightedSum(ds, Values(fs), ds[|ds| - 1], ds[|ds| - 1] - ds[0] + 1))
  }

  /** The flows of the window's positions. */
  function WindowCfs(s: Series, ids: seq<nat>): seq<Option<real>> {
    seq(|ids|, k requires 0 <= k < |ids| => Cf(s, ids[k]))
  }

  /**
   * `dietz_avc`: the average capital to each day of the window, the value
   * before the window plus the time-weighted flows so far. A window opening
   * on the series' first day has no value before it.
   */
  function DietzAvc(s: Series, from: int, to: int): (r: Result<seq<Option<real>>, RtnError>)
    requires ValidSeries(s)
    ensures r.Err? <==> IDates(s, from, to).Err? || from == First(s)
    ensures IDates(s, from, to).Err? ==> r.Err? && r.error == IDates(s, from, to).error
    ensures IDates(s, from, to).Ok? && from == First(s) ==> r == Err(NoMv0)
    ensures r.Ok? ==> |r.value| == to - from + 1
    ensures r.Ok? ==> forall k :: 0 <= k < |r.value| ==> r.value[k].Some?
  {
    match IDates(s, from, to)
    case Err(e) => Err(e)
    case Ok(ids) =>
      match Mv0(s, ids[0])
      case None => Err(NoMv0)
      case Some(mv0) =>
        var cfs := WindowCfs(s, ids);
        Ok(seq(|ids|, k requires 0 <= k < |ids| =>
          match WeightedCf(ids, cfs, k)
          case Some(v) => Some(v + mv0)
          case None => None))
  }

  /** The running total of the first k + 1 values, or None once one of them is missing. */
  function RunningTotal(xs: seq<Option<real>>, k: nat): Option<real>
    requires k < |xs|
  {
    if k == 0 then xs[0]
    else
      var prev := RunningTotal(xs, k - 1);
      if xs[k].Some? && prev.Some? then Some(prev.value + xs[k].value) else None
  }

  /** The running total to k adds the k-th value to the running total before it. */
  lemma RunningStep(xs: seq<Option<real>>, k: nat, prev: Option<real>)
    requires 0 < k < |xs| && prev == RunningTotal(xs, k - 1)
    ensures RunningTotal(xs, k) == if xs[k].Some? && prev.Some? then Some(prev.value + xs[k].value) else None
  {
  }

  /** Over positions inside the series the running total of P&L is the sum of its P&L. */
  lemma {:induction false} RunningTotalOfPls(s: Series, i0: nat, pls: seq<Option<real>>, k: nat)
    requires i0 + |pls| <= |s.pls| && k < |pls|
    requires forall k :: 0 <= k < |pls| ==> pls[k] == Pl(s, i0 + k)
    ensures RunningTotal(pls, k) == Some(Sum(s.pls[i0..i0 + k + 1]))
  {
    var window := s.pls[i0..i0 + k + 1];
    assert window[..k] == s.pls[i0..i0 + k];
    if k == 0 {
      assert window[..0] == [];
    } else {
      RunningTotalOfPls(s, i0, pls, k - 1);
    }
  }

  lemma RunningTotalsOfPls(s: Series, i0: nat, pls: seq<Option<real>>)
    requires i0 + |pls| <= |s.pls|
    requires forall k :: 0 <= k < |pls| ==> pls[k] == Pl(s, i0 + k)
    ensures forall k :: 0 <= k < |pls| ==> RunningTotal(pls, k) == Some(Sum(s.pls[i0..i0 + k + 1]))
  {
    forall k | 0 <= k < |pls| ensures RunningTotal(pls, k) == Some(Sum(s.pls[i0..i0 + k + 1])) {
      RunningTotalOfPls(s, i0, pls, k);
    }
  }

  /** The loop of `cum_pl`: the running total to every position. */
  method RunningTotals(pls: seq<Option<real>>) returns (cumPls: seq<Option<real>>)
    ensures |cumPls| == |pls|
    ensures forall k :: 0 <= k < |pls| ==> cumPls[k] == RunningTotal(pls, k)
  {
    cumPls := [];
    for i := 0 to |pls|
      invariant |cumPls| == i
      invariant forall j :: 0 <= j < i ==> cumPls[j] == RunningTotal(pls, j)
    {
      var v: Option<real>;
      if i == 0 {
        v := pls[i];
      } else {
        RunningStep(pls, i, cumPls[i - 1]);
        if pls[i].Some? && cumPls[i - 1].Some? {
          v := Some(cumPls[i - 1].value + pls[i].value);
        } else {
          v := None;
        }
      }
      assert v == RunningTotal(pls, i);
      cumPls := cumPls + [v];
    }
  }

  /** `cum_pl`: the running total of P&L over the window. */
  method CumPl(s: Series, from: int, to: int) returns (r: Result<seq<Option<real>>, RtnError>)
    requires ValidSeries(s)
    ensures r.Err? <==> IDates(s, from, to).Err?
    ensures r.Err? ==> r.error == IDates(s, from, to).error
    ensures r.Ok? ==> |r.value| == to - from + 1
    ensures r.Ok? ==> forall k :: 0 <= k < |r.value| ==>
              r.value[k] == Some(Sum(s.pls[from - First(s)..from - First(s) + k + 1]))
  {
    var iDates := IDates(s, from, to);
    if iDates.Err? {
      return Err(iDates.error);
    }
    var ids := iDates.value;
    var pls := seq(|ids|, k requires 0 <= k < |ids| => Pl(s, ids[k]));
    var cumPls := RunningTotals(pls);
    RunningTotalsOfPls(s, from - First(s), pls);
    return Ok(cumPls);
  }

  /** `pl / avc` when both exist and the capital is a normal float (here: not zero). */
  function Ratio(pl: Option<real>, avc: Option<real>): Option<real> {
    if pl.Some? && avc.Some? && avc.value != 0.0 then Some(pl.value / avc.value) else None
  }

  /** `dietz`: the Modified Dietz return to each day of the window, P&L so far over average capital. */
  method Dietz(s: Series, from: int, to: int) returns (r: Result<seq<Option<real>>, RtnError>)
    requires ValidSeries(s)
    ensures r.Err? <==> DietzAvc(s, from, to).Err?
    ensures r.Err? ==> r.error == DietzAvc(s, from, to).error
    ensures r.Ok? ==> |r.value| == to - from + 1
    ensures r.Ok? ==> forall k :: 0 <= k < |r.value| ==>
              r.value[k] == Ratio(Some(Sum(s.pls[from - First(s)..from - First(s) + k + 1])),
                                  DietzAvc(s, from, to).value[k])
  {
    var cumPls := CumPl(s, from, to);
    if cumPls.Err? {
      return Err(cumPls.error);
    }
    var avcs := DietzAvc(s, from, to);
    if avcs.Err? {
      return Err(avcs.error);
    }
    var out := seq(|cumPls.value|, k requires 0 <= k < |cumPls.value| => Ratio(cumPls.value[k], avcs.value[k]));
    return Ok(out);
  }

  /** An inflow on the window's first day counts in full, an outflow on its last day not at all. */
  lemma WeightEnds(first: int, last: int, cf: real)
    requires first <= last
    ensures cf > 0.0 ==> Weight(last, first, cf, last - first + 1) == 1.0
    ensures cf <= 0.0 ==> Weight(last, last, cf, last - first + 1) == 0.0
  {
  }

  /** Every weight of a window lies between zero and one. */
  lemma WeightBounds(first: int, last: int, day: int, cf: real)
    requires first <= day <= last
    ensures 0.0 <= Weight(last, day, cf, last - first + 1) <= 1.0
  {
    var n := (last - day + (if cf > 0.0 then 1 else 0)) as real;
    var d := (last - first + 1) as real;
    assert 0.0 <= n <= d && d > 0.0;
    assert n / d <= d / d;
  }

  /** Weighting never turns inflows negative nor makes them larger than their sum. */
  lemma {:induction false} WeightedSumBounds(ids: seq<nat>, cfs: seq<real>, first: int, last: int)
    requires |ids| == |cfs| && first <= last
    requires forall j :: 0 <= j < |ids| ==> first <= ids[j] <= last
    requires forall j :: 0 <= j < |cfs| ==> cfs[j] >= 0.0
    ensures 0.0 <= WeightedSum(ids, cfs, last, last - first + 1) <= Sum(cfs)
  {
    if ids != [] {
      var n := |ids| - 1;
      var t := last - first + 1;
      WeightedSumBounds(ids[..n], cfs[..n], first, last);
      WeightedBounds(first, last, ids[n], cfs[n]);
      assert Sum(cfs) == Sum(cfs[..n]) + cfs[n];
      AddBounds(WeightedSum(ids[..n], cfs[..n], last, t), Weighted(last, ids[n], cfs[n], t), Sum(cfs[..n]), cfs[n]);
    }
  }

  /** Adding the next weighted flow keeps the weighted sum between zero and the plain sum. */
  lemma AddBounds(a: real, b: real, x: real, y: real)
    requires 0.0 <= a <= x && 0.0 <= b <= y
    ensures 0.0 <= a + b <= x + y
  {
  }

  /** An inflow times its weight lies between zero and the inflow. */
  lemma WeightedBounds(first: int, last: int, day: int, cf: real)
    requires first <= day <= last && cf >= 0.0
    ensures 0.0 <= Weighted(last, day, cf, last - first + 1) <= cf
  {
    WeightBounds(first, last, day, cf);
    ScaleBounds(cf, Weight(last, day, cf, last - first + 1));
  }

  /** A weight in [0, 1] keeps a non-negative flow between zero and itself. */
  lemma ScaleBounds(x: real, w: real)
    requires x >= 0.0 && 0.0 <= w <= 1.0
    ensures 0.0 <= x * w <= x
  {
  }

  /** Zero flows weigh nothing. */
  lemma {:induction false} WeightedSumZero(ids: seq<nat>, cfs: seq<real>, last: int, total: int)
    requires |ids| == |cfs| && total > 0
    requires forall j :: 0 <= j < |cfs| ==> cfs[j] == 0.0
    ensures WeightedSum(ids, cfs, last, total) == 0.0
  {
    if ids != [] {
      var n := |ids| - 1;
      WeightedSumZero(ids[..n], cfs[..n], last, total);
    }
  }

  /**
   * The time-weighted flows to position i lie between zero and the sum of
   * the flows when the flows are inflows and the positions start at the first.
   */
  lemma WeightedCfBounds(ids: seq<nat>, cfs: seq<Option<real>>, i: nat)
    requires |ids| == |cfs| && i < |ids|
    requires forall j :: 0 <= j <= i ==> ids[0] <= ids[j] <= ids[i]
    requires forall j :: 0 <= j <= i ==> cfs[j].Some? && cfs[j].value >= 0.0
    ensures WeightedCf(ids, cfs, i).Some?
    ensures 0.0 <= WeightedCf(ids, cfs, i).value <= Sum(Values(cfs[..i + 1]))
  {
    var ds, fs := ids[..i + 1], cfs[..i + 1];
    AnyMissingIff(fs);
    WeightedSumBounds(ds, Values(fs), ids[0], ids[i]);
  }

  /** With no flows the time-weighted flows are zero. */
  lemma WeightedCfZero(ids: seq<nat>, cfs: seq<Option<real>>, i: nat)
    requires |ids| == |cfs| && i < |ids|
    requires forall j :: 0 <= j <= i ==> ids[j] <= ids[i]
    requires forall j :: 0 <= j <= i ==> cfs[j] == Some(0.0)
    ensures WeightedCf(ids, cfs, i) == Some(0.0)
  {
    var ds, fs := ids[..i + 1], cfs[..i + 1];
    AnyMissingIff(fs);
    WeightedSumZero(ds, Values(fs), ds[|ds| - 1], ds[|ds| - 1] - ds[0] + 1);
  }
}
