/**
 * The layer mixer (state_dynamics) as a function on one cell's column: the
 * reference the in-place method of the engine is proved against, and the
 * properties the mixing rule promises.
 */
module Mixing {
  import opened Numerics
  import opened Params

  /** The column with every layer in [lo, hi) set to v. */
  function Fill(s: seq<real>, lo: int, hi: int, v: real): (r: seq<real>)
    ensures |r| == |s|
  {
    seq(|s|, i requires 0 <= i < |s| => if lo <= i < hi then v else s[i])
  }

  /** The column with every layer in [0, m) rounded to one decimal. */
  function RoundPrefix(s: seq<real>, m: int): (r: seq<real>)
    ensures |r| == |s|
  {
    seq(|s|, i requires 0 <= i < |s| => if i < m then Round1(s[i]) else s[i])
  }

  /** Fill, layer by layer: v inside [lo, hi), the old value elsewhere. */
  lemma FillLayers(s: seq<real>, lo: int, hi: int, v: real)
    ensures forall i :: 0 <= i < |s| ==> Fill(s, lo, hi, v)[i] == if lo <= i < hi then v else s[i]
  {
  }

  /** RoundPrefix, layer by layer: rounded above m, the old value from m down. */
  lemma RoundPrefixLayers(s: seq<real>, m: int)
    ensures forall i :: 0 <= i < |s| ==> RoundPrefix(s, m)[i] == if i < m then Round1(s[i]) else s[i]
  {
  }

  /** Filling an empty range changes nothing. */
  lemma FillEmpty(s: seq<real>, lo: int, hi: int, v: real)
    requires hi <= lo
    ensures Fill(s, lo, hi, v) == s
  {
    FillLayers(s, lo, hi, v);
  }

  /** Filling one layer more is one more single-layer update. */
  lemma FillStep(s: seq<real>, lo: int, i: int, v: real)
    requires 0 <= lo <= i < |s|
    ensures Fill(s, lo, i + 1, v) == Fill(s, lo, i, v)[i := v]
  {
    FillLayers(s, lo, i + 1, v);
    FillLayers(s, lo, i, v);
  }

  /** Rounding nothing changes nothing. */
  lemma RoundPrefixEmpty(s: seq<real>, m: int)
    requires m <= 0
    ensures RoundPrefix(s, m) == s
  {
    RoundPrefixLayers(s, m);
  }

  /** Rounding one layer more is one more single-layer update. */
  lemma RoundPrefixStep(s: seq<real>, i: int)
    requires 0 <= i < |s|
    ensures RoundPrefix(s, i + 1) == RoundPrefix(s, i)[i := Round1(s[i])]
  {
    RoundPrefixLayers(s, i + 1);
    RoundPrefixLayers(s, i);
  }

  /**
   * One impact's effect on a column, pass by pass as the engine performs it:
   * the lower range [k, m) is set to primitive, the upper range [0, k) to the
   * upper melt value, the lower range again to the mass-balance value computed
   * from layer 0, and finally [0, m) is rounded to one decimal.
   */
  function MixColumn(c: Config, s: seq<real>, diameter: real, averageTarget: real): (r: seq<real>)
    requires ValidConfig(c) && 1 <= |s|
    ensures |r| == |s|
  {
    var m := MeltLayers(c, diameter);
    var k := UpperCount(c, m);
    var primed := Fill(s, k, m, c.primitive);
    var melted := Fill(primed, 0, k, UpperValue(c, averageTarget));
    var balanced := Fill(melted, k, m, LowerValue(c, averageTarget, melted[0]));
    RoundPrefix(balanced, m)
  }

  /** wt_sio2_upper as it is read from layer 0 when the lower range is non-empty. */
  function UpperWeight(c: Config, diameter: real, averageTarget: real): real
    requires ValidConfig(c)
  {
    if UpperCount(c, MeltLayers(c, diameter)) > 0 then averageTarget * c.upperSiO2 / c.targetSiO2
    else c.primitive
  }

  // ---------------------------------------------------------------------------
  // What one impact does to a column.

  /**
   * Layer by layer: the upper range [0, k) holds the rounded upper melt value
   * average * upper_SiO2 / target_SiO2, the lower range [k, m) the rounded
   * mass-balance value (the primitive placeholder never survives), and every
   * layer from m down is untouched. The column keeps its length.
   */
  lemma {:induction false} MixColumnLayers(c: Config, s: seq<real>, diameter: real, averageTarget: real)
    requires ValidConfig(c) && 1 <= |s|
    ensures var r := MixColumn(c, s, diameter, averageTarget);
            var m := MeltLayers(c, diameter);
            var k := UpperCount(c, m);
            && |r| == |s|
            && (forall i :: 0 <= i < |s| && m <= i ==> r[i] == s[i])
            && (forall i :: 0 <= i < |s| && i < k ==>
                  r[i] == Round1(averageTarget * c.upperSiO2 / c.targetSiO2))
            && (forall i :: 0 <= i < |s| && k <= i < m ==>
                  r[i] == Round1(LowerValue(c, averageTarget, UpperWeight(c, diameter, averageTarget))))
  {
    var m := MeltLayers(c, diameter);
    var k := UpperCount(c, m);
    var uv := UpperValue(c, averageTarget);
    UpperValueIsRatio(c, averageTarget);
    var melted := Fill(Fill(s, k, m, c.primitive), 0, k, uv);
    var lv := LowerValue(c, averageTarget, melted[0]);
    ThreePasses(s, k, m, c.primitive, uv, lv);
    if k < m {
      // the lower range is non-empty, so layer 0 is either upper (k > 0) or lower (k == 0)
      assert melted[0] == UpperWeight(c, diameter, averageTarget);
    }
  }

  /** The three fills and the rounding of MixColumn, for any split point inside [0, m]. */
  lemma ThreePasses(s: seq<real>, k: int, m: int, p: real, uv: real, lv: real)
    requires 1 <= |s|
    requires 0 <= m ==> 0 <= k <= m
    requires m < 0 ==> m <= k <= 0
    ensures var r := RoundPrefix(Fill(Fill(Fill(s, k, m, p), 0, k, uv), k, m, lv), m);
            && |r| == |s|
            && (forall i :: 0 <= i < |s| && m <= i ==> r[i] == s[i])
            && (forall i :: 0 <= i < |s| && i < k ==> r[i] == Round1(uv))
            && (forall i :: 0 <= i < |s| && k <= i < m ==> r[i] == Round1(lv))
            && Fill(Fill(s, k, m, p), 0, k, uv)[0] == (if 0 < k then uv else if k < m then p else s[0])
  {
    var primed := Fill(s, k, m, p);
    var melted := Fill(primed, 0, k, uv);
    var balanced := Fill(melted, k, m, lv);
    FillLayers(s, k, m, p);
    FillLayers(primed, 0, k, uv);
    FillLayers(melted, k, m, lv);
    RoundPrefixLayers(balanced, m);
  }

  /** Every disturbed layer holds a value with at most one decimal. */
  lemma MixColumnRounded(c: Config, s: seq<real>, diameter: real, averageTarget: real)
    requires ValidConfig(c) && 1 <= |s|
    ensures var r := MixColumn(c, s, diameter, averageTarget);
            forall i :: 0 <= i < |r| && i < MeltLayers(c, diameter) ==> IsOneDecimal(r[i])
  {
    var m := MeltLayers(c, diameter);
    var k := UpperCount(c, m);
    var melted := Fill(Fill(s, k, m, c.primitive), 0, k, UpperValue(c, averageTarget));
    ThreePasses(s, k, m, c.primitive, UpperValue(c, averageTarget), LowerValue(c, averageTarget, melted[0]));
  }

  /**
   * Mixing the same column twice with the same impact is mixing it once: the
   * disturbed layers do not depend on what the column held before.
   */
  lemma MixColumnIdempotent(c: Config, s: seq<real>, diameter: real, averageTarget: real)
    requires ValidConfig(c) && 1 <= |s|
    ensures var r := MixColumn(c, s, diameter, averageTarget);
            MixColumn(c, r, diameter, averageTarget) == r
  {
    var r := MixColumn(c, s, diameter, averageTarget);
    MixColumnLayers(c, s, diameter, averageTarget);
    MixColumnLayers(c, r, diameter, averageTarget);
  }

  /** An impact too small to melt a whole layer leaves the column as it was. */
  lemma MixColumnNoMelt(c: Config, s: seq<real>, diameter: real, averageTarget: real)
    requires ValidConfig(c) && 1 <= |s|
    requires MeltLayers(c, diameter) <= 0
    ensures MixColumn(c, s, diameter, averageTarget) == s
  {
    MixColumnLayers(c, s, diameter, averageTarget);
  }

  /** In particular an impactor of diameter 0 changes nothing. */
  lemma MixColumnZeroDiameter(c: Config, s: seq<real>, averageTarget: real)
    requires ValidConfig(c) && 1 <= |s|
    ensures MixColumn(c, s, 0.0, averageTarget) == s
  {
    ZeroDiameterMeltsNothing(c);
    MixColumnNoMelt(c, s, 0.0, averageTarget);
  }

  /**
   * With the engine's defaults, a 30 km impactor on a column still at the
   * primitive 45 wt% melts 5 layers, the top 3 of them upper melt at 49.4 and
   * the next 2 lower melt at 36.2; the other 160 layers keep 45.
   */
  lemma DefaultImpactOnPrimitive()
    ensures var c := DefaultConfig();
            var r := MixColumn(c, seq(165, _ => 45.0), 30.0, 45.0);
            && MeltLayers(c, 30.0) == 5 && UpperCount(c, 5) == 3
            && r[..5] == [49.4, 49.4, 49.4, 36.2, 36.2]
            && forall i :: 5 <= i < 165 ==> r[i] == 45.0
  {
    var c := DefaultConfig();
    var s := seq(165, _ => 45.0);
    assert MeltLayers(c, 30.0) == 5;
    assert Round2(2.0 / 3.0 * 5.0) == 3.33;
    assert UpperCount(c, 5) == 3;
    MixColumnLayers(c, s, 30.0, 45.0);
    var upper := 45.0 * c.upperSiO2 / c.targetSiO2;
    assert Round1(upper) == 49.4;
    assert UpperWeight(c, 30.0, 45.0) == upper;
    var lower := LowerValue(c, 45.0, upper);
    assert lower == 135.0 - 2.0 * upper;
    assert 361.5 < lower * 10.0 < 362.0;
    assert Round1(lower) == 36.2;
  }
}
