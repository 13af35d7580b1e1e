/** Python's bisect: the binary search as it runs on any list, and what it finds in an ascending one. */
module Bisect {
  predicate Ascending(s: seq<int>) { forall i, j :: 0 <= i <= j < |s| ==> s[i] <= s[j] }

  /** bisect_right in s[lo..hi] */
  function BisectRight(s: seq<int>, x: int, lo: nat, hi: nat): (r: nat)
    requires lo <= hi <= |s|
    ensures lo <= r <= hi
    decreases hi - lo
  {
    if lo == hi then lo
    else
      var mid := (lo + hi) / 2;
      if x < s[mid] then BisectRight(s, x, lo, mid) else BisectRight(s, x, mid + 1, hi)
  }

  /** bisect_left in s[lo..hi] */
  function BisectLeft(s: seq<int>, x: int, lo: nat, hi: nat): (r: nat)
    requires lo <= hi <= |s|
    ensures lo <= r <= hi
    decreases hi - lo
  {
    if lo == hi then lo
    else
      var mid := (lo + hi) / 2;
      if s[mid] < x then BisectLeft(s, x, mid + 1, hi) else BisectLeft(s, x, lo, mid)
  }

  lemma {:induction false} BisectRightFinds(s: seq<int>, x: int, lo: nat, hi: nat)
    requires Ascending(s) && lo <= hi <= |s|
    ensures forall i :: lo <= i < BisectRight(s, x, lo, hi) ==> s[i] <= x
    ensures forall i :: BisectRight(s, x, lo, hi) <= i < hi ==> s[i] > x
    decreases hi - lo
  {
    if lo < hi {
      var mid := (lo + hi) / 2;
      if x < s[mid] { BisectRightFinds(s, x, lo, mid); } else { BisectRightFinds(s, x, mid + 1, hi); }
    }
  }

  lemma {:induction false} BisectLeftFinds(s: seq<int>, x: int, lo: nat, hi: nat)
    requires Ascending(s) && lo <= hi <= |s|
    ensures forall i :: lo <= i < BisectLeft(s, x, lo, hi) ==> s[i] < x
    ensures forall i :: BisectLeft(s, x, lo, hi) <= i < hi ==> s[i] >= x
    decreases hi - lo
  {
    if lo < hi {
      var mid := (lo + hi) / 2;
      if s[mid] < x { BisectLeftFinds(s, x, mid + 1, hi); } else { BisectLeftFinds(s, x, lo, mid); }
    }
  }
}
