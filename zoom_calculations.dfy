/**
 * Zoom parameter mapping: each parameter is the larger of a floor and a base
 * scaled by the zoom level `k`; the charge strength is a plain product.
 * The floors and bases are default arguments, as in the source.
 */
module ZoomCalculations {
  import opened Numeric

  function CalculateNodeRadius(zoomLevel: real, minRadius: real := 5.0, baseRadius: real := 10.0): (r: real)
    ensures r >= minRadius && r >= baseRadius * zoomLevel
    ensures r == minRadius || r == baseRadius * zoomLevel
  {
    Max(minRadius, baseRadius * zoomLevel)
  }

  function CalculateLinkDistance(zoomLevel: real, minDistance: real := 50.0, baseDistance: real := 80.0): (r: real)
    ensures r >= minDistance && r >= baseDistance * zoomLevel
    ensures r == minDistance || r == baseDistance * zoomLevel
  {
    Max(minDistance, baseDistance * zoomLevel)
  }

  function CalculateFontSize(zoomLevel: real, minSize: real := 8.0, baseSize: real := 12.0): (r: real)
    ensures r >= minSize && r >= baseSize * zoomLevel
    ensures r == minSize || r == baseSize * zoomLevel
  {
    Max(minSize, baseSize * zoomLevel)
  }

  /** No floor: for a positive zoom level and the default base the charge is repulsive (negative). */
  function CalculateChargeStrength(zoomLevel: real, baseStrength: real := -30.0): (r: real)
    ensures baseStrength < 0.0 && zoomLevel > 0.0 ==> r < 0.0
    ensures zoomLevel == 1.0 ==> r == baseStrength
  {
    baseStrength * zoomLevel
  }

  function CalculateCollisionRadius(zoomLevel: real, minRadius: real := 40.0, baseRadius: real := 60.0): (r: real)
    ensures r >= minRadius && r >= baseRadius * zoomLevel
    ensures r == minRadius || r == baseRadius * zoomLevel
  {
    Max(minRadius, baseRadius * zoomLevel)
  }

  /** Whenever the scaled base reaches the floor, the floor does not bind. */
  lemma ScaledValueWhenAboveFloor(k: real)
    ensures 10.0 * k >= 5.0 ==> CalculateNodeRadius(k) == 10.0 * k
    ensures 80.0 * k >= 50.0 ==> CalculateLinkDistance(k) == 80.0 * k
    ensures 12.0 * k >= 8.0 ==> CalculateFontSize(k) == 12.0 * k
    ensures 60.0 * k >= 40.0 ==> CalculateCollisionRadius(k) == 60.0 * k
  {
  }

  /** A floored parameter with a non-negative base never decreases as the zoom level grows. */
  lemma FlooredMonotone(minValue: real, base: real, k1: real, k2: real)
    requires 0.0 <= base && k1 <= k2
    ensures Max(minValue, base * k1) <= Max(minValue, base * k2)
  {
    assert base * k2 - base * k1 == base * (k2 - k1);
    MulNonNegative(base, k2 - k1);
  }

  lemma MulNonNegative(a: real, b: real)
    requires 0.0 <= a && 0.0 <= b
    ensures 0.0 <= a * b
  {
  }

  /** Every default-argument parameter is monotone in k: non-decreasing, except the charge, which is non-increasing. */
  lemma DefaultsMonotone(k1: real, k2: real)
    requires k1 <= k2
    ensures CalculateNodeRadius(k1) <= CalculateNodeRadius(k2)
    ensures CalculateLinkDistance(k1) <= CalculateLinkDistance(k2)
    ensures CalculateFontSize(k1) <= CalculateFontSize(k2)
    ensures CalculateCollisionRadius(k1) <= CalculateCollisionRadius(k2)
    ensures CalculateChargeStrength(k2) <= CalculateChargeStrength(k1)
  {
    FlooredMonotone(5.0, 10.0, k1, k2);
    FlooredMonotone(50.0, 80.0, k1, k2);
    FlooredMonotone(8.0, 12.0, k1, k2);
    FlooredMonotone(40.0, 60.0, k1, k2);
  }

  /** The values the unit tests expect. */
  lemma TestedValues()
    ensures CalculateNodeRadius(1.0) == 10.0 && CalculateNodeRadius(2.0) == 20.0 && CalculateNodeRadius(0.2) == 5.0
    ensures CalculateLinkDistance(1.0) == 80.0 && CalculateLinkDistance(2.0) == 160.0 && CalculateLinkDistance(0.2) == 50.0
    ensures CalculateChargeStrength(1.0) == -30.0 && CalculateChargeStrength(2.0) == -60.0 && CalculateChargeStrength(0.5) == -15.0
    ensures CalculateCollisionRadius(1.0) == 60.0 && CalculateCollisionRadius(2.0) == 120.0 && CalculateCollisionRadius(0.2) == 40.0
  {
  }
}
