/**
 * The grid subsetter (get_subset_of_grids): the coordinates of the full grid
 * that lie strictly inside the bounding box, without duplicates, in the order
 * in which they first occur.
 */
module Subset {

  /** Strictly inside the limits: the box boundary itself is excluded. */
  predicate Inside(x: real, lo: real, hi: real) {
    lo < x < hi
  }

  /** Some coordinate of `s` lies strictly inside the limits. */
  predicate AnyInside(s: seq<real>, lo: real, hi: real) {
    if |s| == 0 then false else AnyInside(s[..|s| - 1], lo, hi) || Inside(s[|s| - 1], lo, hi)
  }

  /**
   * The list after scanning `s` and appending each inside coordinate that is
   * not yet in it, starting from `acc`.
   */
  function AppendInside(acc: seq<real>, s: seq<real>, lo: real, hi: real): seq<real> {
    if |s| == 0 then acc
    else
      var p := AppendInside(acc, s[..|s| - 1], lo, hi);
      var x := s[|s| - 1];
      if Inside(x, lo, hi) && x !in p then p + [x] else p
  }

  predicate NoDuplicates(s: seq<real>) {
    forall i, j :: 0 <= i < j < |s| ==> s[i] != s[j]
  }

  /** Every element of r occurs in s, and r lists them in the order of their first occurrence in s. */
  predicate InFirstOccurrenceOrder(r: seq<real>, s: seq<real>) {
    forall i, j :: 0 <= i < j < |r| ==> r[i] in s && r[j] in s && FirstIndex(s, r[i]) < FirstIndex(s, r[j])
  }

  /** Index of the first occurrence of x in s. */
  function FirstIndex(s: seq<real>, x: real): (r: nat)
    requires x in s
    ensures r < |s| && s[r] == x
    ensures forall i :: 0 <= i < r ==> s[i] != x
  {
    if s[0] == x then 0 else 1 + FirstIndex(s[1..], x)
  }

  /**
   * lon_subset after the scan: a longitude is taken when some latitude is
   * inside as well, so with no latitude inside nothing is added.
   */
  function LonSubset(acc: seq<real>, lons: seq<real>, lats: seq<real>,
                     lonLo: real, lonHi: real, latLo: real, latHi: real): seq<real> {
    if AnyInside(lats, latLo, latHi) then AppendInside(acc, lons, lonLo, lonHi) else acc
  }

  /** lat_subset after the scan, symmetrically. */
  function LatSubset(acc: seq<real>, lons: seq<real>, lats: seq<real>,
                     lonLo: real, lonHi: real, latLo: real, latHi: real): seq<real> {
    if AnyInside(lons, lonLo, lonHi) then AppendInside(acc, lats, latLo, latHi) else acc
  }

  lemma AnyInsideStep(s: seq<real>, j: int, lo: real, hi: real)
    requires 0 <= j < |s|
    ensures AnyInside(s[..j + 1], lo, hi) == (AnyInside(s[..j], lo, hi) || Inside(s[j], lo, hi))
  {
    assert s[..j + 1][..j] == s[..j];
  }

  lemma AppendInsideStep(acc: seq<real>, s: seq<real>, j: int, lo: real, hi: real)
    requires 0 <= j < |s|
    ensures var p := AppendInside(acc, s[..j], lo, hi);
            AppendInside(acc, s[..j + 1], lo, hi) == if Inside(s[j], lo, hi) && s[j] !in p then p + [s[j]] else p
  {
    assert s[..j + 1][..j] == s[..j];
  }

  /** lat_subset in the middle of row i, after latitudes [0, j) of it. */
  function LatsMidRow(acc: seq<real>, lons: seq<real>, lats: seq<real>, i: int, j: int,
                      lonLo: real, lonHi: real, latLo: real, latHi: real): seq<real>
    requires 0 <= i < |lons| && 0 <= j <= |lats|
  {
    if AnyInside(lons[..i], lonLo, lonHi) then AppendInside(acc, lats, latLo, latHi)
    else if Inside(lons[i], lonLo, lonHi) then AppendInside(acc, lats[..j], latLo, latHi)
    else acc
  }

  /** lon_subset in the middle of row i, after latitudes [0, j) of it. */
  function LonsMidRow(acc: seq<real>, lons: seq<real>, lats: seq<real>, i: int, j: int,
                      lonLo: real, lonHi: real, latLo: real, latHi: real): seq<real>
    requires 0 <= i < |lons| && 0 <= j <= |lats|
  {
    if Inside(lons[i], lonLo, lonHi) && AnyInside(lats[..j], latLo, latHi)
    then AppendInside(acc, lons[..i + 1], lonLo, lonHi)
    else LonSubset(acc, lons[..i], lats, lonLo, lonHi, latLo, latHi)
  }

  /** One step of the inner scan: visiting (lons[i], lats[j]) moves both lists to j + 1. */
  lemma ScanStep(lonAcc: seq<real>, latAcc: seq<real>, lons: seq<real>, lats: seq<real>, i: int, j: int,
                 lonLo: real, lonHi: real, latLo: real, latHi: real, lonS: seq<real>, latS: seq<real>)
    requires 0 <= i < |lons| && 0 <= j < |lats|
    requires lonS == LonsMidRow(lonAcc, lons, lats, i, j, lonLo, lonHi, latLo, latHi)
    requires latS == LatsMidRow(latAcc, lons, lats, i, j, lonLo, lonHi, latLo, latHi)
    ensures var both := Inside(lats[j], latLo, latHi) && Inside(lons[i], lonLo, lonHi);
            && (if both && lats[j] !in latS then latS + [lats[j]] else latS)
               == LatsMidRow(latAcc, lons, lats, i, j + 1, lonLo, lonHi, latLo, latHi)
            && (if both && lons[i] !in lonS then lonS + [lons[i]] else lonS)
               == LonsMidRow(lonAcc, lons, lats, i, j + 1, lonLo, lonHi, latLo, latHi)
  {
    AnyInsideStep(lats, j, latLo, latHi);
    AppendInsideStep(latAcc, lats, j, latLo, latHi);
    AppendInsideStep(lonAcc, lons, i, lonLo, lonHi);
    AppendInsideMembers(latAcc, lats, latLo, latHi, lats[j]);
    AppendInsideMembers(lonAcc, lons[..i + 1], lonLo, lonHi, lons[i]);
    AnyInsideExists(lats, latLo, latHi);
  }

  /** The start of a row is where the previous rows left both lists. */
  lemma RowStart(lonAcc: seq<real>, latAcc: seq<real>, lons: seq<real>, lats: seq<real>, i: int,
                 lonLo: real, lonHi: real, latLo: real, latHi: real)
    requires 0 <= i < |lons|
    ensures LonsMidRow(lonAcc, lons, lats, i, 0, lonLo, lonHi, latLo, latHi)
            == LonSubset(lonAcc, lons[..i], lats, lonLo, lonHi, latLo, latHi)
    ensures LatsMidRow(latAcc, lons, lats, i, 0, lonLo, lonHi, latLo, latHi)
            == LatSubset(latAcc, lons[..i], lats, lonLo, lonHi, latLo, latHi)
  {
    assert lats[..0] == [];
  }

  /** The end of a row is the state after rows [0, i + 1). */
  lemma RowEnd(lonAcc: seq<real>, latAcc: seq<real>, lons: seq<real>, lats: seq<real>, i: int,
               lonLo: real, lonHi: real, latLo: real, latHi: real)
    requires 0 <= i < |lons|
    ensures LonsMidRow(lonAcc, lons, lats, i, |lats|, lonLo, lonHi, latLo, latHi)
            == LonSubset(lonAcc, lons[..i + 1], lats, lonLo, lonHi, latLo, latHi)
    ensures LatsMidRow(latAcc, lons, lats, i, |lats|, lonLo, lonHi, latLo, latHi)
            == LatSubset(latAcc, lons[..i + 1], lats, lonLo, lonHi, latLo, latHi)
  {
    AnyInsideStep(lons, i, lonLo, lonHi);
    assert lats[..|lats|] == lats;
    AppendInsideStep(lonAcc, lons, i, lonLo, lonHi);
  }

  // ---------------------------------------------------------------------------
  // Properties.

  /** AnyInside is the existence of an inside coordinate. */
  lemma {:induction false} AnyInsideExists(s: seq<real>, lo: real, hi: real)
    ensures AnyInside(s, lo, hi) <==> exists x :: x in s && Inside(x, lo, hi)
  {
    if |s| > 0 {
      var init := s[..|s| - 1];
      AnyInsideExists(init, lo, hi);
      assert s == init + [s[|s| - 1]];
    }
  }

  /** The result holds what it started with, and exactly the inside coordinates of `s` besides. */
  lemma {:induction false} AppendInsideMembers(acc: seq<real>, s: seq<real>, lo: real, hi: real, x: real)
    ensures x in AppendInside(acc, s, lo, hi) <==> x in acc || (x in s && Inside(x, lo, hi))
  {
    if |s| > 0 {
      var init := s[..|s| - 1];
      AppendInsideMembers(acc, init, lo, hi, x);
      assert s == init + [s[|s| - 1]];
    }
  }

  /** The scan only appends: what was already in the list stays in front, in place. */
  lemma {:induction false} AppendInsideExtends(acc: seq<real>, s: seq<real>, lo: real, hi: real)
    ensures var r := AppendInside(acc, s, lo, hi);
            |acc| <= |r| && r[..|acc|] == acc
  {
    if |s| > 0 {
      AppendInsideExtends(acc, s[..|s| - 1], lo, hi);
    }
  }

  /** A duplicate-free list stays duplicate-free. */
  lemma {:induction false} AppendInsideNoDuplicates(acc: seq<real>, s: seq<real>, lo: real, hi: real)
    requires NoDuplicates(acc)
    ensures NoDuplicates(AppendInside(acc, s, lo, hi))
  {
    if |s| > 0 {
      AppendInsideNoDuplicates(acc, s[..|s| - 1], lo, hi);
    }
  }

  /** An element of a prefix first occurs at the same index in the whole sequence. */
  lemma {:induction false} FirstIndexPrefix(s: seq<real>, k: nat, x: real)
    requires k <= |s| && x in s[..k]
    ensures x in s && FirstIndex(s, x) == FirstIndex(s[..k], x) < k
  {
    if s[0] != x {
      assert s[..k][1..] == s[1..][..k - 1];
      FirstIndexPrefix(s[1..], k - 1, x);
    }
  }

  /** Starting from an empty list, the coordinates are kept in the order of their first occurrence. */
  lemma {:induction false} AppendInsideFirstOccurrenceOrder(s: seq<real>, lo: real, hi: real)
    ensures InFirstOccurrenceOrder(AppendInside([], s, lo, hi), s)
  {
    if |s| > 0 {
      var n := |s| - 1;
      var init := s[..n];
      var p := AppendInside([], init, lo, hi);
      AppendInsideFirstOccurrenceOrder(init, lo, hi);
      var r := AppendInside([], s, lo, hi);
      forall i | 0 <= i < |p|
        ensures p[i] in init && p[i] in s && FirstIndex(s, p[i]) == FirstIndex(init, p[i]) < n
      {
        AppendInsideMembers([], init, lo, hi, p[i]);
        assert s[..n] == init;
        FirstIndexPrefix(s, n, p[i]);
      }
      if r != p {
        var x := s[n];
        AppendInsideMembers([], init, lo, hi, x);
        assert x !in init;
        assert FirstIndex(s, x) == n;
      }
    }
  }

  /**
   * Starting from empty lists, the scan keeps exactly the longitudes strictly
   * inside lon_lims (and only when some latitude is strictly inside lat_lims),
   * exactly the latitudes strictly inside lat_lims (when some longitude is
   * inside lon_lims), each once, in the order of their first occurrence.
   */
  lemma SubsetsAreTheBox(lons: seq<real>, lats: seq<real>, lonLo: real, lonHi: real, latLo: real, latHi: real)
    ensures forall x :: x in LonSubset([], lons, lats, lonLo, lonHi, latLo, latHi) <==>
              x in lons && Inside(x, lonLo, lonHi) && exists y :: y in lats && Inside(y, latLo, latHi)
    ensures forall y :: y in LatSubset([], lons, lats, lonLo, lonHi, latLo, latHi) <==>
              y in lats && Inside(y, latLo, latHi) && exists x :: x in lons && Inside(x, lonLo, lonHi)
    ensures NoDuplicates(LonSubset([], lons, lats, lonLo, lonHi, latLo, latHi))
    ensures NoDuplicates(LatSubset([], lons, lats, lonLo, lonHi, latLo, latHi))
    ensures InFirstOccurrenceOrder(LonSubset([], lons, lats, lonLo, lonHi, latLo, latHi), lons)
    ensures InFirstOccurrenceOrder(LatSubset([], lons, lats, lonLo, lonHi, latLo, latHi), lats)
  {
    AnyInsideExists(lons, lonLo, lonHi);
    AnyInsideExists(lats, latLo, latHi);
    forall x ensures x in AppendInside([], lons, lonLo, lonHi) <==> x in lons && Inside(x, lonLo, lonHi) {
      AppendInsideMembers([], lons, lonLo, lonHi, x);
    }
    forall y ensures y in AppendInside([], lats, latLo, latHi) <==> y in lats && Inside(y, latLo, latHi) {
      AppendInsideMembers([], lats, latLo, latHi, y);
    }
    AppendInsideNoDuplicates([], lons, lonLo, lonHi);
    AppendInsideNoDuplicates([], lats, latLo, latHi);
    AppendInsideFirstOccurrenceOrder(lons, lonLo, lonHi);
    AppendInsideFirstOccurrenceOrder(lats, latLo, latHi);
  }
}
