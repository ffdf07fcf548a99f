/** The constant tables every other part of the graph view reads. */
module GraphConstants {

  // Zoom thresholds: below FAR is the minimal view, above MID the detailed one, MAX bounds zooming in.
  const ZOOM_FAR: real := 0.5
  const ZOOM_MID: real := 1.5
  const ZOOM_MAX: real := 4.0

  // Canvas size in pixels.
  const WIDTH: real := 700.0
  const HEIGHT: real := 500.0

  // Palette.
  const BACKGROUND: string := "#1a1a1a"
  const NODE_DEFAULT: string := "#69b3a2"
  const NODE_DIMMED: string := "#2a4542"
  const NODE_HIGHLIGHT: string := "#ff7f50"
  const LINK_DEFAULT: string := "#999"
  const LINK_HIGHLIGHT: string := "#ff7f50"
  const TEXT: string := "#f5f5f5"

  lemma ZoomThresholdsOrdered()
    ensures 0.0 < ZOOM_FAR < ZOOM_MID < ZOOM_MAX
  {
  }

  lemma CanvasDimensions()
    ensures WIDTH == 700.0 && HEIGHT == 500.0
    ensures WIDTH > HEIGHT > 0.0
  {
  }

  /** The three node colours can be told apart, and so can the two link colours. */
  lemma PaletteDistinct()
    ensures NODE_DEFAULT != NODE_DIMMED && NODE_DIMMED != NODE_HIGHLIGHT && NODE_DEFAULT != NODE_HIGHLIGHT
    ensures LINK_DEFAULT != LINK_HIGHLIGHT
  {
  }
}
