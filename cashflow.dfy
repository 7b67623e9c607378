/**
 * The dated cashflow container: an ordered date -> amount map (a BTreeMap in
 * the engine), represented by its entries in iteration order, i.e. with
 * strictly increasing dates.
 */
module Cashflows {
  import opened Wrappers
  import opened DateHandle

  datatype Entry = Entry(date: Date, amount: real)

  datatype Cashflow = Cashflow(entries: seq<Entry>)

  /**
   * The BTreeMap ordering invariant: every key is a calendar date and the
   * dates strictly increase, so no date repeats.
   */
  predicate Increasing(es: seq<Entry>) {
    && (forall i :: 0 <= i < |es| ==> ValidDate(es[i].date))
    && (forall i, j :: 0 <= i < j < |es| ==> Before(es[i].date, es[j].date))
  }

  predicate ValidCashflow(c: Cashflow) {
    Increasing(c.entries)
  }

  function KeySet(es: seq<Entry>): set<Date> {
    set e | e in es :: e.date
  }

  /** Map lookup: the amount stored at date d, if any. */
  function Get(es: seq<Entry>, d: Date): Option<real> {
    if es == [] then None
    else if es[0].date == d then Some(es[0].amount)
    else Get(es[1..], d)
  }

  lemma {:induction false} GetIffKey(es: seq<Entry>, d: Date)
    ensures Get(es, d).Some? <==> d in KeySet(es)
  {
    if es != [] {
      GetIffKey(es[1..], d);
      assert KeySet(es) == {es[0].date} + KeySet(es[1..]);
    }
  }

  /** `BTreeMap::new()`. */
  function New(): (c: Cashflow)
    ensures ValidCashflow(c) && Len(c) == 0
    ensures forall d :: Get(c.entries, d) == None
  {
    Cashflow([])
  }

  /** `BTreeMap::insert`: replace the amount at k, or add k in its sorted place. */
  function Insert(es: seq<Entry>, k: Date, v: real): seq<Entry>
    requires Increasing(es) && ValidDate(k)
  {
    if es == [] then [Entry(k, v)]
    else if es[0].date == k then [Entry(k, v)] + es[1..]
    else if Before(k, es[0].date) then [Entry(k, v)] + es
    else
      TailIncreasing(es);
      [es[0]] + Insert(es[1..], k, v)
  }

  /** Inserting keeps the map ordered. */
  lemma {:induction false} InsertIncreasing(es: seq<Entry>, k: Date, v: real)
    requires Increasing(es) && ValidDate(k)
    ensures Increasing(Insert(es, k, v))
  {
    if es == [] {
    } else if es[0].date == k {
      TailIncreasing(es);
      PrependIncreasing(Entry(k, v), es[1..]);
    } else if Before(k, es[0].date) {
      PrependIncreasing(Entry(k, v), es);
    } else {
      DateKeyInjective(es[0].date, k);
      var tail := es[1..];
      TailIncreasing(es);
      InsertIncreasing(tail, k, v);
      InsertAbove(tail, k, v, es[0].date);
      PrependIncreasing(es[0], Insert(tail, k, v));
    }
  }

  /** A date below k and below every stored date stays below every date after inserting. */
  lemma {:induction false} InsertAbove(es: seq<Entry>, k: Date, v: real, lo: Date)
    requires Increasing(es) && ValidDate(k)
    requires Before(lo, k) && forall i :: 0 <= i < |es| ==> Before(lo, es[i].date)
    ensures forall i :: 0 <= i < |Insert(es, k, v)| ==> Before(lo, Insert(es, k, v)[i].date)
  {
    if es != [] && es[0].date != k && !Before(k, es[0].date) {
      TailIncreasing(es);
      InsertAbove(es[1..], k, v, lo);
      var rest := Insert(es[1..], k, v);
      assert Insert(es, k, v) == [es[0]] + rest;
    }
  }

  /** Inserting adds exactly the key k. */
  lemma {:induction false} InsertKeys(es: seq<Entry>, k: Date, v: real)
    requires Increasing(es) && ValidDate(k)
    ensures KeySet(Insert(es, k, v)) == KeySet(es) + {k}
  {
    if es == [] {
    } else if es[0].date == k {
      assert KeySet(es) == {k} + KeySet(es[1..]);
      assert KeySet([Entry(k, v)] + es[1..]) == {k} + KeySet(es[1..]);
    } else if Before(k, es[0].date) {
      assert KeySet([Entry(k, v)] + es) == {k} + KeySet(es);
    } else {
      var tail := es[1..];
      TailIncreasing(es);
      InsertKeys(tail, k, v);
      var rest := Insert(tail, k, v);
      assert KeySet(es) == {es[0].date} + KeySet(tail);
      assert KeySet([es[0]] + rest) == {es[0].date} + KeySet(rest);
    }
  }

  /** After inserting, k maps to v and every other date keeps its amount. */
  lemma {:induction false} InsertGet(es: seq<Entry>, k: Date, v: real, d: Date)
    requires Increasing(es) && ValidDate(k)
    ensures Get(Insert(es, k, v), d) == if d == k then Some(v) else Get(es, d)
  {
    if es != [] && es[0].date != k && !Before(k, es[0].date) {
      TailIncreasing(es);
      InsertGet(es[1..], k, v, d);
    }
  }

  lemma TailIncreasing(es: seq<Entry>)
    requires Increasing(es) && |es| > 0
    ensures Increasing(es[1..])
  {
    forall i | 0 <= i < |es| - 1 ensures es[1..][i] == es[i + 1] {
    }
  }

  /** A prefix of an ordered map is ordered and lies before the next entry. */
  lemma PrefixIncreasing(es: seq<Entry>, i: nat)
    requires Increasing(es) && i <= |es|
    ensures Increasing(es[..i])
    ensures i < |es| ==> forall j :: 0 <= j < i ==> Before(es[..i][j].date, es[i].date)
  {
    forall j | 0 <= j < i ensures es[..i][j] == es[j] {
    }
  }

  /** An entry later than every stored one can go at the end. */
  lemma SnocIncreasing(es: seq<Entry>, e: Entry)
    requires Increasing(es) && ValidDate(e.date)
    requires forall i :: 0 <= i < |es| ==> Before(es[i].date, e.date)
    ensures Increasing(es + [e])
  {
    var s := es + [e];
    forall i | 0 <= i < |es| ensures s[i] == es[i] {
    }
  }

  /** A valid date earlier than every stored one can go in front. */
  lemma PrependIncreasing(e: Entry, es: seq<Entry>)
    requires Increasing(es) && ValidDate(e.date)
    requires forall i :: 0 <= i < |es| ==> Before(e.date, es[i].date)
    ensures Increasing([e] + es)
  {
    var s := [e] + es;
    forall i | 1 <= i < |s| ensures s[i] == es[i - 1] {
    }
  }

  /** Inserting a date later than every stored date appends it. */
  lemma {:induction false} InsertLast(es: seq<Entry>, k: Date, v: real)
    requires Increasing(es) && ValidDate(k)
    requires forall i :: 0 <= i < |es| ==> Before(es[i].date, k)
    ensures Insert(es, k, v) == es + [Entry(k, v)]
    ensures Increasing(es + [Entry(k, v)])
  {
    SnocIncreasing(es, Entry(k, v));
    if es != [] {
      assert es[0].date != k && !Before(k, es[0].date);
      TailIncreasing(es);
      InsertLast(es[1..], k, v);
      assert Insert(es, k, v) == [es[0]] + Insert(es[1..], k, v);
      assert [es[0]] + (es[1..] + [Entry(k, v)]) == es + [Entry(k, v)];
    }
  }

  function Dates(c: Cashflow): (ds: seq<Date>)
    requires ValidCashflow(c)
    ensures |ds| == Len(c)
    ensures forall i, j :: 0 <= i < j < |ds| ==> Before(ds[i], ds[j])
    ensures forall i :: 0 <= i < |ds| ==> ds[i] == c.entries[i].date
  {
    seq(|c.entries|, i requires 0 <= i < |c.entries| => c.entries[i].date)
  }

  function Values(c: Cashflow): (vs: seq<real>)
    ensures |vs| == Len(c)
    ensures ValidCashflow(c) ==> forall i :: 0 <= i < |vs| ==> Get(c.entries, c.entries[i].date) == Some(vs[i])
  {
    ValuesLookup(c);
    seq(|c.entries|, i requires 0 <= i < |c.entries| => c.entries[i].amount)
  }

  lemma ValuesLookup(c: Cashflow)
    ensures ValidCashflow(c) ==> forall i :: 0 <= i < |c.entries| ==> Get(c.entries, c.entries[i].date) == Some(c.entries[i].amount)
  {
    if ValidCashflow(c) {
      forall i | 0 <= i < |c.entries| ensures Get(c.entries, c.entries[i].date) == Some(c.entries[i].amount) {
        GetAt(c.entries, i);
      }
    }
  }

  lemma {:induction false} GetAt(es: seq<Entry>, i: nat)
    requires Increasing(es) && i < |es|
    ensures Get(es, es[i].date) == Some(es[i].amount)
  {
    if i > 0 {
      assert es[0].date != es[i].date;
      TailIncreasing(es);
      GetAt(es[1..], i - 1);
    }
  }

  function Len(c: Cashflow): nat {
    |c.entries|
  }

  /** The entries of es strictly after refDate, in order. */
  function After(es: seq<Entry>, refDate: Date): seq<Entry> {
    if es == [] then []
    else
      var last := es[|es| - 1];
      After(es[..|es| - 1], refDate) + (if Before(refDate, last.date) then [last] else [])
  }

  /** Extending the scanned prefix by one entry extends the view by that entry or by nothing. */
  lemma AfterStep(es: seq<Entry>, i: nat, refDate: Date)
    requires i < |es|
    ensures After(es[..i + 1], refDate)
         == After(es[..i], refDate) + (if Before(refDate, es[i].date) then [es[i]] else [])
  {
    assert es[..i + 1][..i] == es[..i];
  }

  /** Every kept entry lies below any date that bounds all scanned entries. */
  lemma {:induction false} AfterBelow(es: seq<Entry>, refDate: Date, bound: Date)
    requires forall j :: 0 <= j < |es| ==> Before(es[j].date, bound)
    ensures forall j :: 0 <= j < |After(es, refDate)| ==> Before(After(es, refDate)[j].date, bound)
  {
    if es != [] {
      var init := es[..|es| - 1];
      assert forall j :: 0 <= j < |init| ==> init[j] == es[j];
      AfterBelow(init, refDate, bound);
    }
  }

  /** The kept entries are ordered and all dated strictly after refDate. */
  lemma {:induction false} AfterIncreasing(es: seq<Entry>, refDate: Date)
    requires Increasing(es)
    ensures Increasing(After(es, refDate))
    ensures forall j :: 0 <= j < |After(es, refDate)| ==> Before(refDate, After(es, refDate)[j].date)
  {
    if es != [] {
      var init := es[..|es| - 1];
      var last := es[|es| - 1];
      PrefixIncreasing(es, |es| - 1);
      AfterIncreasing(init, refDate);
      AfterBelow(init, refDate, last.date);
      var a := After(init, refDate);
      if Before(refDate, last.date) {
        SnocIncreasing(a, last);
        assert forall j :: 0 <= j < |a| ==> (a + [last])[j] == a[j];
      }
    }
  }

  /** The kept entries are exactly the entries dated after refDate. */
  lemma {:induction false} AfterMembers(es: seq<Entry>, refDate: Date)
    ensures forall e :: e in After(es, refDate) <==> e in es && Before(refDate, e.date)
  {
    if es != [] {
      var init := es[..|es| - 1];
      var last := es[|es| - 1];
      AfterMembers(init, refDate);
      assert es == init + [last];
    }
  }

  /**
   * The "relative to a reference date" view: empty if the cashflow is empty;
   * otherwise the entries strictly after refDate, preceded by the outflow
   * -price at refDate when a price is given.
   */
  function View(c: Cashflow, refDate: Date, price: Option<real>): (r: Cashflow)
    requires ValidCashflow(c) && ValidDate(refDate)
    ensures ValidCashflow(r)
    ensures Len(c) == 0 ==> Len(r) == 0
    ensures Len(c) > 0 && price.Some? ==> Len(r) > 0
  {
    AfterIncreasing(c.entries, refDate);
    var after := After(c.entries, refDate);
    if |c.entries| == 0 then New()
    else if price.Some? then
      PrependIncreasing(Entry(refDate, -price.value), after);
      Cashflow([Entry(refDate, -price.value)] + after)
    else Cashflow(after)
  }

  /** The outflow entry the view starts with, if a price is given. */
  function Outflow(refDate: Date, price: Option<real>): (o: seq<Entry>)
    ensures |o| <= 1 && forall j :: 0 <= j < |o| ==> o[j].date == refDate
  {
    if price.Some? then [Entry(refDate, -price.value)] else []
  }

  /** A non-empty cashflow's view is the outflow followed by the entries after refDate. */
  lemma ViewShape(c: Cashflow, refDate: Date, price: Option<real>)
    requires ValidCashflow(c) && ValidDate(refDate) && Len(c) > 0
    ensures View(c, refDate, price).entries == Outflow(refDate, price) + After(c.entries, refDate)
  {
  }

  /** What the view holds at every date, stated as a map. */
  lemma ViewLookup(c: Cashflow, refDate: Date, price: Option<real>, d: Date)
    requires ValidCashflow(c) && ValidDate(refDate) && Len(c) > 0
    ensures Get(View(c, refDate, price).entries, d)
         == if price.Some? && d == refDate then Some(-price.value)
            else if Before(refDate, d) then Get(c.entries, d)
            else None
  {
    AfterMembers(c.entries, refDate);
    var after := After(c.entries, refDate);
    if Before(refDate, d) {
      GetAfter(c.entries, refDate, d);
    } else {
      GetIffKey(after, d);
      assert d !in KeySet(after);
    }
  }

  lemma {:induction false} GetAfter(es: seq<Entry>, refDate: Date, d: Date)
    requires Increasing(es)
    requires Before(refDate, d)
    ensures Get(After(es, refDate), d) == Get(es, d)
  {
    AfterIncreasing(es, refDate);
    AfterMembers(es, refDate);
    GetIffKey(es, d);
    GetIffKey(After(es, refDate), d);
    if d in KeySet(es) {
      var i :| 0 <= i < |es| && es[i].date == d;
      GetAt(es, i);
      var a := After(es, refDate);
      assert es[i] in a;
      var j :| 0 <= j < |a| && a[j] == es[i];
      GetAt(a, j);
    } else {
      assert d !in KeySet(After(es, refDate));
    }
  }

  /**
   * One iteration of `cf`'s loop: the map built so far is ordered, lies before
   * the entry scanned next when that entry is kept, and appending it (or not)
   * extends the view by one scanned entry.
   */
  lemma CfStep(es: seq<Entry>, i: nat, refDate: Date, head: seq<Entry>, data: seq<Entry>)
    requires Increasing(es) && i < |es| && ValidDate(refDate)
    requires |head| <= 1 && (forall j :: 0 <= j < |head| ==> head[j].date == refDate)
    requires data == head + After(es[..i], refDate)
    ensures Increasing(data)
    ensures Before(refDate, es[i].date) ==> forall j :: 0 <= j < |data| ==> Before(data[j].date, es[i].date)
    ensures (if Before(refDate, es[i].date) then data + [es[i]] else data) == head + After(es[..i + 1], refDate)
  {
    var prefix := es[..i];
    PrefixIncreasing(es, i);
    AfterIncreasing(prefix, refDate);
    AfterBelow(prefix, refDate, es[i].date);
    AfterStep(es, i, refDate);
    HeadIncreasing(head, After(prefix, refDate), refDate);
    if Before(refDate, es[i].date) {
      HeadBelow(head, After(prefix, refDate), es[i].date);
    }
  }

  /** The outflow at refDate in front of entries after refDate keeps the map ordered. */
  lemma HeadIncreasing(head: seq<Entry>, after: seq<Entry>, refDate: Date)
    requires ValidDate(refDate) && Increasing(after)
    requires |head| <= 1 && (forall j :: 0 <= j < |head| ==> head[j].date == refDate)
    requires forall j :: 0 <= j < |after| ==> Before(refDate, after[j].date)
    ensures Increasing(head + after)
  {
    if |head| == 1 {
      PrependIncreasing(head[0], after);
      assert head + after == [head[0]] + after;
    } else {
      assert head + after == after;
    }
  }

  /** Two runs of entries below a bound stay below it together. */
  lemma HeadBelow(head: seq<Entry>, after: seq<Entry>, bound: Date)
    requires forall j :: 0 <= j < |head| ==> Before(head[j].date, bound)
    requires forall j :: 0 <= j < |after| ==> Before(after[j].date, bound)
    ensures forall j :: 0 <= j < |head + after| ==> Before((head + after)[j].date, bound)
  {
  }

  /**
   * `Cashflow::cf`: builds a fresh map, inserting the outflow first and then
   * every entry dated after refDate, in the map's order.
   */
  method Cf(c: Cashflow, refDate: Date, price: Option<real>) returns (r: Cashflow)
    requires ValidCashflow(c) && ValidDate(refDate)
    ensures r == View(c, refDate, price)
  {
    if |c.entries| == 0 {
      return New();
    }
    var data: seq<Entry> := [];
    if price.Some? {
      data := Insert(data, refDate, -price.value);
    }
    ghost var head := data;
    assert head == Outflow(refDate, price);
    for i := 0 to |c.entries|
      invariant data == head + After(c.entries[..i], refDate)
    {
      var e := c.entries[i];
      CfStep(c.entries, i, refDate, head, data);
      if Before(refDate, e.date) {
        InsertLast(data, e.date, e.amount);
        data := Insert(data, e.date, e.amount);
      }
    }
    assert c.entries[..|c.entries|] == c.entries;
    ViewShape(c, refDate, price);
    r := Cashflow(data);
  }
}
