/**
 * The target averager (get_average_target) as functions over a snapshot of
 * the cell state store: the mean of the top z_layers values over the
 * footprint, where a cell missing from the store counts as primitive.
 */
module Averaging {
  import opened CellKeys
  import opened Locator

  /** Python's s[:n] on a column: clamped at the end, counted from the end when n < 0. */
  function Prefix(s: seq<real>, n: int): (r: seq<real>)
    ensures 0 <= n <= |s| ==> r == s[..n]
    ensures |s| <= n ==> r == s
  {
    if n >= 0 then (if n <= |s| then s[..n] else s)
    else if |s| + n > 0 then s[..|s| + n]
    else []
  }

  /** np.sum. */
  function Sum(s: seq<real>): real {
    if |s| == 0 then 0.0 else Sum(s[..|s| - 1]) + s[|s| - 1]
  }

  /** What one footprint cell adds to the running total. */
  function Contribution(cols: map<Key, seq<real>>, primitive: real, zLayers: int, c: Cell): real {
    var key := KeyOf(c.lon, c.lat);
    if key in cols then Sum(Prefix(cols[key], zLayers)) else primitive * zLayers as real
  }

  /** The running total after visiting `cells` in order. */
  function TargetSum(cols: map<Key, seq<real>>, primitive: real, zLayers: int, cells: seq<Cell>): real {
    if |cells| == 0 then 0.0
    else TargetSum(cols, primitive, zLayers, cells[..|cells| - 1])
         + Contribution(cols, primitive, zLayers, cells[|cells| - 1])
  }

  /** average_target: the total divided by len(footprint) * z_layers. */
  function AverageTarget(cols: map<Key, seq<real>>, primitive: real, zLayers: int, cells: seq<Cell>): real
    requires |cells| > 0 && zLayers != 0
  {
    TargetSum(cols, primitive, zLayers, cells) / (|cells| as real * zLayers as real)
  }

  // ---------------------------------------------------------------------------
  // Properties.

  /** The total of a footprint split in two is the sum of the totals. */
  lemma {:induction false} TargetSumAppend(cols: map<Key, seq<real>>, primitive: real, zLayers: int, a: seq<Cell>, b: seq<Cell>)
    ensures TargetSum(cols, primitive, zLayers, a + b)
            == TargetSum(cols, primitive, zLayers, a) + TargetSum(cols, primitive, zLayers, b)
  {
    if |b| == 0 {
      assert a + b == a;
    } else {
      var init := b[..|b| - 1];
      TargetSumAppend(cols, primitive, zLayers, a, init);
      assert (a + b)[..|a + b| - 1] == a + init;
    }
  }

  /**
   * The total does not depend on the order in which the footprint is visited:
   * any rearrangement of the same cells gives the same total, hence the same average.
   */
  lemma {:induction false} TargetSumPermutation(cols: map<Key, seq<real>>, primitive: real, zLayers: int, a: seq<Cell>, b: seq<Cell>)
    requires multiset(a) == multiset(b)
    ensures TargetSum(cols, primitive, zLayers, a) == TargetSum(cols, primitive, zLayers, b)
    decreases |a|
  {
    if |a| == 0 {
      assert |multiset(b)| == 0;
    } else {
      var n := |a| - 1;
      var x := a[n];
      assert a == a[..n] + [x];
      assert x in multiset(b);
      var i :| 0 <= i < |b| && b[i] == x;
      var rest := b[..i] + b[i + 1..];
      assert b == b[..i] + [x] + b[i + 1..];
      assert multiset(rest) == multiset(a[..n]) by {
        assert multiset(a) == multiset(a[..n]) + multiset{x};
        assert multiset(b) == multiset(b[..i]) + multiset{x} + multiset(b[i + 1..]);
        assert multiset(rest) == multiset(b[..i]) + multiset(b[i + 1..]);
        assert multiset(rest) == multiset(b) - multiset{x};
        assert multiset(a[..n]) == multiset(a) - multiset{x};
      }
      TargetSumPermutation(cols, primitive, zLayers, a[..n], rest);
      TargetSumAppend(cols, primitive, zLayers, b[..i] + [x], b[i + 1..]);
      TargetSumAppend(cols, primitive, zLayers, b[..i], [x]);
      TargetSumAppend(cols, primitive, zLayers, b[..i], b[i + 1..]);
      assert [x][..0] == [];
    }
  }

  /** The average is the same for any rearrangement of the footprint. */
  lemma AverageTargetPermutation(cols: map<Key, seq<real>>, primitive: real, zLayers: int, a: seq<Cell>, b: seq<Cell>)
    requires multiset(a) == multiset(b) && |a| > 0 && zLayers != 0
    ensures |b| == |a|
    ensures AverageTarget(cols, primitive, zLayers, a) == AverageTarget(cols, primitive, zLayers, b)
  {
    assert |multiset(a)| == |multiset(b)|;
    TargetSumPermutation(cols, primitive, zLayers, a, b);
  }

  /** A column whose top layers are all v sums to v times their number. */
  lemma {:induction false} SumConstant(s: seq<real>, v: real)
    requires forall i :: 0 <= i < |s| ==> s[i] == v
    ensures Sum(s) == |s| as real * v
  {
    if |s| > 0 {
      SumConstant(s[..|s| - 1], v);
    }
  }

  /** Predicate: every present footprint column holds v in at least its top zLayers layers. */
  ghost predicate UniformTop(cols: map<Key, seq<real>>, v: real, zLayers: int, cells: seq<Cell>) {
    forall c :: c in cells && KeyOf(c.lon, c.lat) in cols ==>
      zLayers <= |cols[KeyOf(c.lon, c.lat)]|
      && forall i :: 0 <= i < zLayers ==> cols[KeyOf(c.lon, c.lat)][i] == v
  }

  /** Over a footprint still at the primitive state, the average target is the primitive value. */
  lemma {:induction false} AverageOfPrimitive(cols: map<Key, seq<real>>, primitive: real, zLayers: int, cells: seq<Cell>)
    requires 0 < zLayers && |cells| > 0
    requires UniformTop(cols, primitive, zLayers, cells)
    ensures AverageTarget(cols, primitive, zLayers, cells) == primitive
  {
    TargetSumOfPrimitive(cols, primitive, zLayers, cells);
    var d := |cells| as real * zLayers as real;
    assert d > 0.0;
    assert TargetSum(cols, primitive, zLayers, cells) == d * primitive;
    assert d * primitive / d == primitive;
  }

  lemma MultiplySucc(n: nat, v: real)
    ensures n as real * v + v == (n + 1) as real * v
  {
  }

  lemma TargetSumOfPrimitive(cols: map<Key, seq<real>>, primitive: real, zLayers: int, cells: seq<Cell>)
    requires 0 < zLayers
    requires UniformTop(cols, primitive, zLayers, cells)
    ensures TargetSum(cols, primitive, zLayers, cells) == |cells| as real * (zLayers as real * primitive)
  {
    forall c | c in cells
      ensures Contribution(cols, primitive, zLayers, c) == zLayers as real * primitive
    {
      ContributionOfPrimitive(cols, primitive, zLayers, c);
    }
    TargetSumUniform(cols, primitive, zLayers, cells, zLayers as real * primitive);
  }

  /** When every footprint cell contributes v, the total is v per cell. */
  lemma {:induction false} TargetSumUniform(cols: map<Key, seq<real>>, primitive: real, zLayers: int, cells: seq<Cell>, v: real)
    requires forall c :: c in cells ==> Contribution(cols, primitive, zLayers, c) == v
    ensures TargetSum(cols, primitive, zLayers, cells) == |cells| as real * v
  {
    if |cells| > 0 {
      var n := |cells| - 1;
      assert forall c :: c in cells[..n] ==> c in cells;
      TargetSumUniform(cols, primitive, zLayers, cells[..n], v);
      assert cells[n] in cells;
      assert TargetSum(cols, primitive, zLayers, cells)
             == TargetSum(cols, primitive, zLayers, cells[..n]) + Contribution(cols, primitive, zLayers, cells[n]);
      MultiplySucc(n, v);
    }
  }

  lemma ContributionOfPrimitive(cols: map<Key, seq<real>>, primitive: real, zLayers: int, c: Cell)
    requires 0 < zLayers
    requires UniformTop(cols, primitive, zLayers, [c])
    ensures Contribution(cols, primitive, zLayers, c) == zLayers as real * primitive
  {
    var key := KeyOf(c.lon, c.lat);
    if key in cols {
      var top := cols[key][..zLayers];
      assert Prefix(cols[key], zLayers) == top;
      SumConstant(top, primitive);
    }
  }
}
