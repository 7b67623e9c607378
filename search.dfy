/**
 * Rust's `slice::binary_search` on a strictly increasing sequence: `Ok(i)`
 * when the key sits at index i, `Err(i)` with the insertion point otherwise.
 */
module Search {

  datatype SearchResult = Found(index: nat) | NotFound(insertAt: nat)

  predicate StrictlyIncreasing(s: seq<int>) {
    forall i, j :: 0 <= i < j < |s| ==> s[i] < s[j]
  }

  function BinarySearch(s: seq<int>, x: int): (r: SearchResult)
    requires StrictlyIncreasing(s)
    ensures r.Found? ==> r.index < |s| && s[r.index] == x
    ensures r.NotFound? ==> r.insertAt <= |s| && x !in s
    ensures r.NotFound? ==> forall j :: 0 <= j < r.insertAt ==> s[j] < x
    ensures r.NotFound? ==> forall j :: r.insertAt <= j < |s| ==> x < s[j]
    ensures r.Found? <==> x in s
  {
    SearchBetween(s, x, 0, |s|)
  }

  /** Halve the window [lo, hi); everything left of lo is below x, everything from hi on above it. */
  function SearchBetween(s: seq<int>, x: int, lo: nat, hi: nat): (r: SearchResult)
    requires StrictlyIncreasing(s)
    requires lo <= hi <= |s|
    requires forall j :: 0 <= j < lo ==> s[j] < x
    requires forall j :: hi <= j < |s| ==> x < s[j]
    ensures r.Found? ==> r.index < |s| && s[r.index] == x
    ensures r.NotFound? ==> r.insertAt <= |s|
    ensures r.NotFound? ==> forall j :: 0 <= j < r.insertAt ==> s[j] < x
    ensures r.NotFound? ==> forall j :: r.insertAt <= j < |s| ==> x < s[j]
    decreases hi - lo
  {
    if lo == hi then NotFound(lo)
    else
      var mid := (lo + hi) / 2;
      if s[mid] == x then Found(mid)
      else if s[mid] < x then SearchBetween(s, x, mid + 1, hi)
      else SearchBetween(s, x, lo, mid)
  }
}
