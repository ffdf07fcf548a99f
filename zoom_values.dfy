/** The record of zoom-dependent values the graph view derives from the current zoom level. */
module ZoomDependentValues {
  import opened Numeric
  import opened GraphConstants
  import ZoomCalculations

  datatype ZoomValues = ZoomValues(nodeRadius: real, linkDistance: real, chargeStrength: real, collisionRadius: real)

  /** The record is built from its own expressions; it agrees field by field with the calculators at their defaults. */
  function ZoomDependentValues(zoomLevel: real): (v: ZoomValues)
    ensures v.nodeRadius == ZoomCalculations.CalculateNodeRadius(zoomLevel)
    ensures v.linkDistance == ZoomCalculations.CalculateLinkDistance(zoomLevel)
    ensures v.chargeStrength == ZoomCalculations.CalculateChargeStrength(zoomLevel)
    ensures v.collisionRadius == ZoomCalculations.CalculateCollisionRadius(zoomLevel)
    ensures v.nodeRadius >= 5.0 && v.linkDistance >= 50.0 && v.collisionRadius >= 40.0
  {
    ZoomValues(Max(5.0, 10.0 * zoomLevel), Max(50.0, 80.0 * zoomLevel), -30.0 * zoomLevel, Max(40.0, 60.0 * zoomLevel))
  }

  /** Inside the zoom range the viewport allows, the node-radius floor never binds. */
  lemma NodeRadiusExactInZoomRange(k: real)
    requires ZOOM_FAR <= k <= ZOOM_MAX
    ensures ZoomDependentValues(k).nodeRadius == 10.0 * k
  {
  }

  lemma TestedValues()
    ensures ZoomDependentValues(1.0) == ZoomValues(10.0, 80.0, -30.0, 60.0)
    ensures ZoomDependentValues(2.0) == ZoomValues(20.0, 160.0, -60.0, 120.0)
    ensures ZoomDependentValues(0.5) == ZoomValues(5.0, 50.0, -15.0, 40.0)
  {
  }
}
