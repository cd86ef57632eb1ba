/**
 * The configuration of one IMPaCS run and the quantities derived from an
 * impactor's diameter: melt layers, the upper/lower split, the crater radius
 * and the number of layers averaged as target material.
 */
module Params {
  import opened Numerics

  /** The constructor arguments of the engine that affect behaviour. */
  datatype Config = Config(
    maxDepth: real,            // max_depth_of_impact_melt (km)
    primitive: real,           // primitive_initial_state (wt% SiO2)
    fractionUpper: real,       // fraction_upper_layer
    targetSiO2: real,          // target_SiO2 (Sudbury)
    upperSiO2: real,           // upper_SiO2 (Sudbury)
    zKm: real,                 // z_discretized_km, the layer thickness
    meltProportion: real,      // proportion_melt_from_impact
    lonLo: real, lonHi: real,  // lon_lims
    latLo: real, latHi: real   // lat_lims
  )

  /**
   * What the model requires of the constants: non-zero divisors (layer
   * thickness, target and upper SiO2), a non-negative depth, and an upper
   * fraction in [0, 1]. The split k = int(round(f * m, 2)) then lies in
   * [0, m], which keeps it off negative indices and inside the rounded range.
   * The fraction must also stay below 1, because MixColumn divides by the lower
   * fraction even when the lower range is empty.
   */
  predicate ValidConfig(c: Config) {
    && c.zKm > 0.0
    && 0.0 <= c.maxDepth
    && 0.0 <= c.fractionUpper < 1.0
    && c.targetSiO2 != 0.0
    && c.upperSiO2 != 0.0
  }

  /** The defaults of the engine's constructor. */
  function DefaultConfig(): (c: Config)
    ensures ValidConfig(c)
  {
    Config(330.0, 45.0, 2.0 / 3.0, 62.58, 68.71, 2.0, 1.0 / 3.0, -180.0, 180.0, -45.0, 45.0)
  }

  /** fraction_lower_layer = 1 - fraction_upper_layer. */
  function FractionLower(c: Config): real {
    1.0 - c.fractionUpper
  }

  /** fractionation_factor = 1 - target_SiO2 / upper_SiO2. */
  function FractionationFactor(c: Config): real
    requires ValidConfig(c)
  {
    1.0 - c.targetSiO2 / c.upperSiO2
  }

  /** Number of layers in every column: int(max_depth / z). */
  function TotalLayers(c: Config): nat
    requires ValidConfig(c)
  {
    QuotientNonNegative(c.maxDepth, c.zKm);
    Trunc(c.maxDepth / c.zKm)
  }

  lemma QuotientNonNegative(a: real, z: real)
    requires 0.0 <= a && 0.0 < z
    ensures 0.0 <= a / z
  {
    MulNonNegative(a, 1.0 / z);
    assert a / z == a * (1.0 / z);
  }

  /** melt_layers = int(diameter * proportion_melt / z). */
  function MeltLayers(c: Config, diameter: real): int
    requires ValidConfig(c)
  {
    Trunc(diameter * c.meltProportion / c.zKm)
  }

  /**
   * The split point k = int(round(fraction_upper * melt_layers, 2)). It lies
   * inside the disturbed range, so [0, k) and [k, m) partition [0, m).
   */
  function UpperCount(c: Config, m: int): (k: int)
    requires 0.0 <= c.fractionUpper <= 1.0
    ensures 0 <= m ==> 0 <= k <= m
    ensures m < 0 ==> m <= k <= 0
  {
    var f := c.fractionUpper;
    SplitPoint(f, m);
    Trunc(Round2(f * m as real))
  }

  /** z_layers = int(ceil(diameter / z)): layers of target material averaged per cell. */
  function ZLayers(c: Config, diameter: real): int
    requires ValidConfig(c)
  {
    Ceil(diameter / c.zKm)
  }

  /** crator_radius = (10 * diameter) / 2. */
  function CraterRadius(diameter: real): real {
    10.0 * diameter / 2.0
  }

  /** The value written to every upper melt layer: average_target / (1 - fractionation_factor). */
  function UpperValue(c: Config, averageTarget: real): real
    requires ValidConfig(c)
  {
    var ff := FractionationFactor(c);
    assert 1.0 - ff == c.targetSiO2 / c.upperSiO2;
    averageTarget / (1.0 - ff)
  }

  /** The value written to every lower melt layer, given the upper weight wt_sio2_upper. */
  function LowerValue(c: Config, averageTarget: real, upperWeight: real): real
    requires ValidConfig(c)
  {
    (averageTarget - c.fractionUpper * upperWeight) / FractionLower(c)
  }

  // ---------------------------------------------------------------------------
  // Properties of the derived quantities.

  /** The upper layer value is the target average scaled by upper_SiO2 / target_SiO2. */
  lemma UpperValueIsRatio(c: Config, averageTarget: real)
    requires ValidConfig(c)
    ensures UpperValue(c, averageTarget) == averageTarget * c.upperSiO2 / c.targetSiO2
  {
    var q := c.targetSiO2 / c.upperSiO2;
    assert q * c.upperSiO2 == c.targetSiO2;
    assert (averageTarget * c.upperSiO2 / c.targetSiO2) * q == averageTarget;
  }

  /** The lower value is the mass balance: fu * upper + (1 - fu) * lower == average. */
  lemma LowerValueBalances(c: Config, averageTarget: real, upperWeight: real)
    requires ValidConfig(c)
    ensures c.fractionUpper * upperWeight
            + FractionLower(c) * LowerValue(c, averageTarget, upperWeight) == averageTarget
  {
  }

  /**
   * The split point int(round(f * m, 2)) for a fraction f in [0, 1] lies
   * between 0 and m, so [0,k) and [k,m) partition the disturbed range.
   */
  lemma SplitPoint(f: real, m: int)
    requires 0.0 <= f <= 1.0
    ensures 0 <= m ==> 0 <= Trunc(Round2(f * m as real)) <= m
    ensures m < 0 ==> m <= Trunc(Round2(f * m as real)) <= 0
  {
    var y := f * m as real;
    ScaleBetween(f, m as real);
    var lo, hi := if 0 <= m then 0 else m, if 0 <= m then m else 0;
    SplitBetween(y, lo, hi);
  }

  lemma SplitBetween(y: real, lo: int, hi: int)
    requires lo as real <= y <= hi as real
    ensures lo <= Trunc(Round2(y)) <= hi
  {
    Round2Bounded(y, lo, hi);
    TruncBounded(Round2(y), lo, hi);
  }

  /** Scaling by a fraction in [0, 1] keeps a value between 0 and itself. */
  lemma ScaleBetween(f: real, y: real)
    requires 0.0 <= f <= 1.0
    ensures 0.0 <= y ==> 0.0 <= f * y <= y
    ensures y <= 0.0 ==> y <= f * y <= 0.0
  {
    MulNonNegative(f, if y >= 0.0 then y else -y);
    MulNonNegative(1.0 - f, if y >= 0.0 then y else -y);
  }

  lemma MulNonNegative(a: real, b: real)
    requires 0.0 <= a && 0.0 <= b
    ensures 0.0 <= a * b
  {
  }

  /** A diameter of zero melts nothing. */
  lemma ZeroDiameterMeltsNothing(c: Config)
    requires ValidConfig(c)
    ensures MeltLayers(c, 0.0) == 0
  {
  }

  /** The melt depth is the diameter times the melt proportion, cut into whole layers. */
  lemma MeltLayersWithinDepth(c: Config, diameter: real)
    requires ValidConfig(c)
    requires 0.0 <= diameter * c.meltProportion
    ensures 0 <= MeltLayers(c, diameter)
    ensures MeltLayers(c, diameter) as real * c.zKm <= diameter * c.meltProportion
    ensures diameter * c.meltProportion < (MeltLayers(c, diameter) + 1) as real * c.zKm
  {
    var depth := diameter * c.meltProportion;
    var q := depth / c.zKm;
    assert q * c.zKm == depth;
    assert 0.0 <= q by { MulNonNegative(depth, 1.0 / c.zKm); }
    var m := Trunc(q);
    ScaleInterval(q, c.zKm, m as real, m as real + 1.0);
  }

  /** z_layers is the least number of whole layers that covers the diameter. */
  lemma ZLayersCoverDiameter(c: Config, diameter: real)
    requires ValidConfig(c)
    ensures (ZLayers(c, diameter) - 1) as real * c.zKm < diameter
    ensures diameter <= ZLayers(c, diameter) as real * c.zKm
  {
    var q := diameter / c.zKm;
    assert q * c.zKm == diameter;
    var n := Ceil(q);
    ScaleInterval(q, c.zKm, n as real - 1.0, n as real);
  }

  /** Multiplying an interval by a positive factor. */
  lemma ScaleInterval(q: real, z: real, lo: real, hi: real)
    requires 0.0 < z
    ensures lo <= q ==> lo * z <= q * z
    ensures q < hi ==> q * z < hi * z
    ensures lo < q ==> lo * z < q * z
    ensures q <= hi ==> q * z <= hi * z
  {
  }
}
