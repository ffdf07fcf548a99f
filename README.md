# Portfolio knowledge graph: a verified model of its graph core

The portfolio site shows its articles, videos and projects as a force-directed graph
drawn with D3 inside React, with a content page per item. This project models, in Dafny,
the deterministic logic of that graph core:

- the zoom-dependent sizes (node radius, link distance, charge, collision radius, font size);
- the palette, zoom thresholds and canvas constants;
- the position clamps and the neighbourhood queries behind hover highlighting;
- the scene the layout hook creates and the per-tick update that clamps nodes into the
  padded canvas and moves lines and node groups;
- the hover highlight and its reset;
- the drag gesture filter and the pin / release handlers;
- the force-simulation hook: what it configures on the first run, what it re-parameterises
  on later runs, and its timer state (alpha, alpha target, running);
- the stand-alone graph view component (fixed styles, hover, ticks, drag end with cool-down);
- the content page: loading by id, the `[[wiki-link]]` tokenizer and the star-shaped
  related-items graph.

Numbers are exact `real`s; `Math.max`/`Math.min` are `Numeric.Max`/`Numeric.Min`.
Strings are sequences of Unicode characters. Where the code reads a string's `length`, the
model counts UTF-16 code units, as JavaScript does (`ForceSimulation.Utf16Length`). The
tokenizer needs no such care: the characters it tests (`[`, `]`, line terminators) are
single code units, and no code unit of a surrogate pair equals one of them.
Nodes live in an arena (`array<Node>` or `seq<Node>`); a link holds the indices of its two
nodes, and `Graph.Ends` is its projection to node ids, which is what the highlight code
compares. SVG elements are records (`Scene.Circle`, `Line`, `Label`, `Group`) in arrays
aligned with the data; an attribute no code has written holds its SVG initial value
(opacity 1, coordinates 0). The imperative handlers are methods on those arrays (and on the
`ForceSimulation.Simulation` class). Each is proved equal to a pure function of the old
state, and the properties are lemmas about those functions.

Points where the code's behaviour is easy to misread:

- The zoom functions do not clamp a non-finite or negative zoom level to 1; they compute
  `max(floor, base * k)` for every `k`.
- A later run of the simulation hook with a new data set does not create a new simulation.
  It re-parameterises the existing one: the links are replaced, but the simulation keeps its
  original node array. `ForceSimulation.ForceSimulationHook.Effect` states this.
- Drag start sets the simulation's alpha *target* to 0.3 (and restarts the timer); it does
  not set alpha itself. Drag end in the hook sets the target to 0. Drag end in the
  stand-alone view sets the target to 0.3 and schedules a reset to 0.
- Nodes are clamped into the padded canvas by the layout hook's tick handler, not inside
  the simulation step.

## Model

| member | source | states |
|---|---|---|
| Numeric.Max | frontend/src/utils/zoomCalculations.js:2 | the result is at least both arguments and equal to one of them (`Math.max`) |
| Numeric.Min | frontend/src/utils/graphHelpers.js:26 | the result is at most both arguments and equal to one of them (`Math.min`) |
| ZoomCalculations.CalculateNodeRadius | frontend/src/utils/zoomCalculations.js:1-3 | radius is at least `minRadius` (default 5) and at least `baseRadius*k` (default 10k), and is one of the two |
| ZoomCalculations.CalculateLinkDistance | frontend/src/utils/zoomCalculations.js:5-7 | distance is at least 50 and 80k, and is one of the two (defaults) |
| ZoomCalculations.CalculateFontSize | frontend/src/utils/zoomCalculations.js:9-11 | font size is at least 8 and 12k, and is one of the two |
| ZoomCalculations.CalculateChargeStrength | frontend/src/utils/zoomCalculations.js:13-15 | charge is repulsive (negative) for a negative base and positive zoom; at zoom 1 it is the base |
| ZoomCalculations.CalculateCollisionRadius | frontend/src/utils/zoomCalculations.js:17-19 | collision radius is at least 40 and 60k, and is one of the two |
| ZoomCalculations.ScaledValueWhenAboveFloor | frontend/src/utils/zoomCalculations.js:1-19 | whenever the scaled value reaches the floor, the result is exactly the scaled value (e.g. radius 10k when 10k ≥ 5) |
| ZoomCalculations.FlooredMonotone | frontend/src/utils/zoomCalculations.js:1-19 | a floored scale with a non-negative base never decreases as zoom grows |
| ZoomCalculations.DefaultsMonotone | frontend/src/utils/zoomCalculations.js:1-19 | radius, distance, font size and collision radius grow with zoom; charge strength falls |
| ZoomCalculations.TestedValues | frontend/src/utils/zoomCalculations.test.js:9-39 | the values at zoom 1, 2, 0.2 and 0.5 are those the unit tests expect |
| ZoomDependentValues.ZoomDependentValues | frontend/src/hooks/useZoomDependentValues.js:3-13 | each field equals the corresponding zoom calculation at its default parameters; radius ≥ 5, distance ≥ 50, collision ≥ 40 |
| ZoomDependentValues.NodeRadiusExactInZoomRange | frontend/src/hooks/useZoomDependentValues.js:6 | between the FAR and MAX thresholds the node radius is exactly 10k |
| ZoomDependentValues.TestedValues | frontend/src/hooks/useZoomDependentValues.test.js:6-37 | the records at zoom 1, 2 and 0.5 are those the hook's tests expect |
| GraphConstants.ZoomThresholdsOrdered | frontend/src/constants/graph.js:1-5 | 0 < FAR (0.5) < MID (1.5) < MAX (4) |
| GraphConstants.CanvasDimensions | frontend/src/constants/graph.js:7-10 | the canvas is 700 × 500 |
| GraphConstants.PaletteDistinct | frontend/src/constants/graph.js:12-24 | the default, dimmed and highlight node colours are pairwise distinct, as are the two link colours |
| GraphHelpers.CalculateBoundedPosition | frontend/src/utils/graphHelpers.js:25-27 | for `min ≤ max` the result lies in `[min, max]`; an in-range value is unchanged; below gives min, above gives max; for `max < min` the result is min |
| GraphHelpers.BoundedPositionIdempotent | frontend/src/utils/graphHelpers.js:25-27 | bounding an already bounded value changes nothing |
| GraphHelpers.BoundedPositionTestedValues | frontend/src/utils/graphHelpers.test.js:5-9 | 5, -5 and 15 bounded to [0, 10] give 5, 0 and 10 |
| GraphHelpers.CalculateNodePosition | frontend/src/utils/graphHelpers.js:29-31 | the position lies in `[padding, width - padding]` when that is non-empty; in-range values are unchanged |
| GraphHelpers.NodePositionTestedValues | frontend/src/utils/graphHelpers.test.js:13-20 | 50, 0 and 100 on width 100 with padding 10 give 50, 10 and 90 |
| GraphHelpers.FindConnectedLinks | frontend/src/utils/graphHelpers.js:3-8 | the result is no longer than the input and contains exactly the links with the node at either end |
| GraphHelpers.FindConnectedLinksAppend | frontend/src/utils/graphHelpers.js:3-8 | the filter keeps document order: filtering a concatenation is concatenating the filtered halves |
| GraphHelpers.FindConnectedNodes | frontend/src/utils/graphHelpers.js:10-23 | the result contains exactly the nodes joined to the node by some link in either direction, plus the node itself |
| GraphHelpers.FindConnectedNodesAppend | frontend/src/utils/graphHelpers.js:10-23 | the node filter keeps document order, as above |
| GraphHelpers.NeighbourhoodSymmetric | frontend/src/utils/graphHelpers.js:17-21 | b is in a's neighbourhood exactly when a is in b's (links count in both directions) |
| GraphHelpers.NeighbourhoodNotTransitive | frontend/src/utils/graphHelpers.js:17-21 | on the chain 1–2–3, node 3 is not in node 1's neighbourhood: only direct links count |
| GraphHelpers.StarCentreNeighbourhood | frontend/src/utils/graphHelpers.js:10-23 | on a three-leaf star the centre's neighbourhood is every node, in order |
| GraphHelpers.StarLeafNeighbourhood | frontend/src/utils/graphHelpers.js:10-23 | on the same star a leaf's neighbourhood is the centre and itself |
| Graph.EndsOf | frontend/src/utils/graphHelpers.js:6 | one projection per link, holding the ids of that link's source and target nodes |
| Scene.PlaceLines | frontend/src/hooks/useGraphLayout.js:73-77 | every line's endpoints are its source and target nodes' positions; stroke, width and opacity are kept |
| GraphLayout.PaddedCanvasNonEmpty | frontend/src/hooks/useGraphLayout.js:64-69 | with padding 50 the default canvas leaves [50, 650] × [50, 450] for nodes |
| GraphLayout.CreateLinks | frontend/src/hooks/useGraphLayout.js:4-17 | one line per link; their style is stated by `CreatedLinesAgree` and `HighlightBehavior.CreatedScene` |
| GraphLayout.CreatedLinesAgree | frontend/src/hooks/useGraphLayout.js:13-14 | every created line has stroke `#999` and stroke width `k * 0.5` |
| GraphLayout.NewLine | frontend/src/hooks/useGraphLayout.js:10-14 | a new line has stroke `#999`, opacity 1 and a positive width for a positive zoom, and its width is 1 exactly when the zoom scale is 2 |
| GraphLayout.CreateCircles | frontend/src/hooks/useGraphLayout.js:29-34 | one circle per node; its default fill and zoom radius are stated by `HighlightBehavior.CreatedScene` |
| GraphLayout.NewCircle | frontend/src/hooks/useGraphLayout.js:29-34 | a new circle has the default fill, opacity 1 and the zoom-dependent radius |
| GraphLayout.CreateLabels | frontend/src/hooks/useGraphLayout.js:36-45 | one label per node; offset, font size and text are stated by `CreatedLabelsAgree` |
| GraphLayout.CreatedLabelsAgree | frontend/src/hooks/useGraphLayout.js:40-45 | each label sits `nodeRadius + 10` below its node, has the zoom font size `max(8, 12k)` and shows the node's title |
| GraphLayout.NewLabel | frontend/src/hooks/useGraphLayout.js:36-45 | a new label sits `nodeRadius + 10` below its node, shows its title and has the font size `ZoomCalculations.CalculateFontSize` gives for the zoom |
| GraphLayout.CreateGroups | frontend/src/hooks/useGraphLayout.js:21-27 | one group per node, untranslated until the first tick places it (`TranslateGroups`) |
| GraphLayout.ClampNode | frontend/src/hooks/useGraphLayout.js:68-69 | only x and y change; each lands in the padded range when the canvas is wide (high) enough; a node already inside is unchanged |
| GraphLayout.ClampAll | frontend/src/hooks/useGraphLayout.js:66-70 | only x and y change; on a canvas at least 100 wide (high) every x (y) lands in the padded range; nodes already inside are unchanged |
| GraphLayout.ClampAllIdempotent | frontend/src/hooks/useGraphLayout.js:66-70 | clamping twice is clamping once |
| GraphLayout.TranslateGroups | frontend/src/hooks/useGraphLayout.js:80 | every group is translated to its node's position |
| GraphLayout.Tick | frontend/src/hooks/useGraphLayout.js:62-83 | a tick keeps the scene aligned with the data; its effect is stated by `TickIdempotent` and `TickKeepsSceneInCanvas` |
| GraphLayout.TickIdempotent | frontend/src/hooks/useGraphLayout.js:62-83 | a second tick without movement changes nothing |
| GraphLayout.TickKeepsSceneInCanvas | frontend/src/hooks/useGraphLayout.js:62-83 | on the default canvas every node, line endpoint and group ends in [50, 650] × [50, 450] |
| GraphLayout.UpdatePositions | frontend/src/hooks/useGraphLayout.js:62-83 | the arrays after the update are exactly the `Tick` of the arrays before |
| GraphLayout.ClampNodes | frontend/src/hooks/useGraphLayout.js:67-70 | the loop leaves the node array equal to `ClampAll` of its old contents |
| GraphLayout.DrawLines | frontend/src/hooks/useGraphLayout.js:73-77 | the loop leaves the line array equal to `PlaceLines` of its old contents |
| GraphLayout.DrawGroups | frontend/src/hooks/useGraphLayout.js:80 | the loop leaves the group array equal to `TranslateGroups` of its old contents |
| HighlightBehavior.Over | frontend/src/hooks/useHighlightBehavior.js:37-65 | hovering keeps the styles aligned with the data; its effect is stated by `OverEffect` |
| HighlightBehavior.OverEffect | frontend/src/hooks/useHighlightBehavior.js:42-64 | hovered circle: highlight colour, radius × 1.5, opacity 1; its neighbours: default colour, opacity 1; others: dimmed, 0.4; incident links: highlight colour, width 2, opacity 1; others: `#999`, 0.2, width kept; the hovered label moves to `3r + 1` |
| HighlightBehavior.OutCircles | frontend/src/hooks/useHighlightBehavior.js:80-83 | one reset circle per circle; the reset values are stated by `OutResetsEverything` |
| HighlightBehavior.OutLines | frontend/src/hooks/useHighlightBehavior.js:86 | one reset line per line; the reset values are stated by `OutResetsEverything` |
| HighlightBehavior.Out | frontend/src/hooks/useHighlightBehavior.js:77-94 | the reset keeps the scene's shape; its effect is stated by `OutResetsEverything` and `OutForgetsHover` |
| HighlightBehavior.OutResetsEverything | frontend/src/hooks/useHighlightBehavior.js:77-94 | after mouse-out every circle is default colour, opacity 1, base radius; every line `#999`, width 1, opacity 1; the label at `r + 10`; a second reset changes nothing |
| HighlightBehavior.OutForgetsHover | frontend/src/hooks/useHighlightBehavior.js:37-94 | mouse-out after any hover gives the same circles and lines as mouse-out alone (and the same label when it is the same node) |
| HighlightBehavior.OutRestoresCreatedLabelOffset | frontend/src/hooks/useHighlightBehavior.js:89-91 | the reset label offset is the one the layout created |
| HighlightBehavior.ArenaIncidence | frontend/src/hooks/useHighlightBehavior.js:6-15 | with unique node ids, the id test on a link's ends holds exactly when the hovered node is the link's source or target in the arena |
| HighlightBehavior.ArenaNeighbourhood | frontend/src/hooks/useHighlightBehavior.js:18-35 | with unique node ids, a node is in the hovered node's neighbourhood exactly when it is that node or some link joins their arena indices, in either direction |
| HighlightBehavior.CreatedScene | frontend/src/hooks/useGraphLayout.js:4-45 | a freshly created scene has the base styles the highlight code assumes |
| HighlightBehavior.HoverRoundTripAsWritten | frontend/src/hooks/useHighlightBehavior.js:86 | on a freshly created scene, hover then mouse-out restores it exactly iff there are no links or the zoom scale is 2 |
| HighlightBehavior.HoverRoundTripCounterexample | frontend/src/hooks/useHighlightBehavior.js:86 | at scale 1 a created line of width 0.5 comes back with width 1 |
| HighlightBehavior.RestoringOut | frontend/src/hooks/useHighlightBehavior.js:77-94 | the corrected reset (line width back to `k * 0.5`) keeps the scene's shape; its effect is stated by `HoverRoundTripRestoring` |
| HighlightBehavior.HoverRoundTripRestoring | frontend/src/hooks/useHighlightBehavior.js:77-94 | with the line width reset to `k * 0.5`, hover then mouse-out restores a created scene exactly |
| HighlightBehavior.HandleNodeMouseOver | frontend/src/hooks/useHighlightBehavior.js:37-75 | without nodes, links or labels nothing changes; otherwise the arrays become exactly `Over` of their old contents |
| HighlightBehavior.DimAll | frontend/src/hooks/useHighlightBehavior.js:42-43 | every circle dimmed to opacity 0.4, every line `#999` at opacity 0.2, nothing else |
| HighlightBehavior.HighlightNeighbourhood | frontend/src/hooks/useHighlightBehavior.js:18-50 | exactly the neighbourhood's circles get the default colour at opacity 1 |
| HighlightBehavior.HighlightIncidentLinks | frontend/src/hooks/useHighlightBehavior.js:6-53 | exactly the incident lines get the highlight colour, width 2, opacity 1 |
| HighlightBehavior.HandleNodeMouseOut | frontend/src/hooks/useHighlightBehavior.js:77-94 | the arrays become exactly `Out` of their old contents |
| DragBehavior.DragFilter | frontend/src/hooks/useDragBehavior.js:9-12 | a gesture is admitted iff its button is absent or 0, Ctrl is not held and the default was not prevented |
| DragBehavior.DragFilterTestedCases | frontend/src/hooks/useDragBehavior.test.js:57-60 | primary button admitted; other button, Ctrl, prevented default refused |
| DragBehavior.StartPin | frontend/src/hooks/useDragBehavior.js:18-19 | the node is pinned at its own position; nothing but the pin changes |
| DragBehavior.MovePin | frontend/src/hooks/useDragBehavior.js:23-24 | the node is pinned at the pointer; nothing but the pin changes |
| DragBehavior.ReleasePin | frontend/src/hooks/useDragBehavior.js:30-31 | the pin is cleared on both axes; nothing else changes |
| DragBehavior.HandlersOnlyTouchPin | frontend/src/hooks/useDragBehavior.js:13-32 | start, drag and end change only the pin (`fx`, `fy`), never the position; start pins at the current position |
| DragBehavior.MovesPinAtLastPointer | frontend/src/hooks/useDragBehavior.js:21-25 | after a run of drag events the node is pinned at the last pointer position |
| DragBehavior.SingleDragReleases | frontend/src/hooks/useDragBehavior.js:13-32 | a whole single gesture (start, any number of moves, end) leaves the node unpinned and otherwise as before |
| DragBehavior.DragStart | frontend/src/hooks/useDragBehavior.js:13-20 | the node is pinned at its position; with no other active gesture the alpha target becomes 0.3 and the timer runs; nothing else changes |
| DragBehavior.Drag | frontend/src/hooks/useDragBehavior.js:21-25 | the node is pinned at the pointer and nothing else changes |
| DragBehavior.DragEnd | frontend/src/hooks/useDragBehavior.js:26-32 | the pin is released; with no other active gesture the alpha target becomes 0; nothing else changes |
| ForceSimulation.Utf16Length | frontend/src/hooks/useForceSimulation.js:41 | a title's JavaScript `length` counts UTF-16 code units: between one and two per character |
| ForceSimulation.Utf16LengthBmp | frontend/src/hooks/useForceSimulation.js:41 | a title written in the Basic Multilingual Plane has length equal to its number of characters |
| ForceSimulation.Utf16LengthAstral | frontend/src/hooks/useForceSimulation.js:41 | an emoji is one character but has length 2 |
| ForceSimulation.LabelWidth | frontend/src/hooks/useForceSimulation.js:41 | the width is 0 exactly for an empty title, and otherwise lies between 5 and 10 px per character (5 per UTF-16 code unit) |
| ForceSimulation.CollisionRadius | frontend/src/hooks/useForceSimulation.js:40-43 | the collision radius covers the label (5 px per UTF-16 code unit of the title) and is never below the zoom radius; it is one of the two |
| ForceSimulation.CollisionRadiusAtLeastFloor | frontend/src/hooks/useForceSimulation.js:40-43 | with the zoom-dependent radius no node's collision radius is below 40 |
| ForceSimulation.InitialConfig | frontend/src/hooks/useForceSimulation.js:16-48 | the forces hold the given links and the zoom collision radius, and a later run with the same inputs changes nothing; every value is stated by `InitialConfiguration` |
| ForceSimulation.Reparameterise | frontend/src/hooks/useForceSimulation.js:51-67 | every static parameter is kept, the links are replaced and the centre and x/y forces agree; the full effect is stated by `ReparameteriseEffect` |
| ForceSimulation.InitialConfiguration | frontend/src/hooks/useForceSimulation.js:16-48 | link strength 0.5; charge at the zoom strength, window [10, 200], theta 0.9; centre at canvas middle, 0.1; x/y forces 0.05; velocity decay 0.4, alpha min 0.001, alpha decay 0.02 |
| ForceSimulation.ReparameteriseEffect | frontend/src/hooks/useForceSimulation.js:49-67 | a later run replaces the links, distance, charge, centres and collision radius, and leaves every other parameter as it was |
| ForceSimulation.ReparameteriseIsRecreate | frontend/src/hooks/useForceSimulation.js:15-67 | re-parameterising a created configuration gives exactly the configuration a fresh creation with the new values would |
| ForceSimulation.ApplyRunsIsLatestCreate | frontend/src/hooks/useForceSimulation.js:49-67 | after any number of later runs the configuration is what creating with the latest run's values gives |
| ForceSimulation.Simulation.Create | frontend/src/hooks/useForceSimulation.js:15-48 | a new simulation holds the given nodes and the initial configuration, with alpha 1, alpha target 0, running |
| ForceSimulation.Simulation.SetAlpha | frontend/src/hooks/useForceSimulation.js:70 | sets alpha only |
| ForceSimulation.Simulation.SetAlphaTarget | frontend/src/hooks/useDragBehavior.js:17 | sets the alpha target only |
| ForceSimulation.Simulation.Restart | frontend/src/hooks/useForceSimulation.js:70 | the timer runs; nothing else changes |
| ForceSimulation.Simulation.Stop | frontend/src/hooks/useForceSimulation.js:73-75 | the timer stops; nothing else changes, so stopping twice is stopping once |
| ForceSimulation.Simulation.Reconfigure | frontend/src/hooks/useForceSimulation.js:51-67 | the configuration becomes `Reparameterise` of the old one; nodes and timer state are kept |
| ForceSimulation.ForceSimulationHook.constructor | frontend/src/hooks/useForceSimulation.js:9 | the simulation reference starts empty |
| ForceSimulation.ForceSimulationHook.Effect | frontend/src/hooks/useForceSimulation.js:11-76 | no data: nothing changes; first run: a fresh simulation with the initial configuration; later runs: the same simulation, same nodes, re-parameterised, alpha 0.3, running |
| ForceSimulation.ForceSimulationHook.Cleanup | frontend/src/hooks/useForceSimulation.js:73-75 | an existing simulation is stopped and otherwise unchanged |
| GraphViewComponent.ViewForcesCentred | frontend/src/components/GraphView/GraphView.jsx:4-45 | only the centre force depends on the canvas; on the default 800 × 600 canvas it is (400, 300) |
| GraphViewComponent.ViewForcesValues | frontend/src/components/GraphView/GraphView.jsx:34-52 | distance 50, link strength 0.7, charge -100 in [10, 200], centre strength 0.05, collision radius 15 and strength 0.7, velocity decay 0.6 |
| GraphViewComponent.ViewForcesFor | frontend/src/components/GraphView/GraphView.jsx:34-52 | the charge is repulsive with a non-empty distance window, and the centre is the canvas middle; every value is stated by `ViewForcesValues` |
| GraphViewComponent.Rendered | frontend/src/components/GraphView/GraphView.jsx:58-87 | one circle of radius 10 in `#69b3a2` per node and one `#999` line of width 1 per link |
| GraphViewComponent.Effect | frontend/src/components/GraphView/GraphView.jsx:7-52 | without data or without a mounted canvas nothing is drawn; otherwise fresh arrays holding exactly the rendered view, and the component's forces |
| GraphViewComponent.HighlightIncident | frontend/src/components/GraphView/GraphView.jsx:105-109 | one line per link; which lines change is stated by `OverEffect` |
| GraphViewComponent.RestoreIncident | frontend/src/components/GraphView/GraphView.jsx:129-133 | one line per link; the round trip it completes is stated by `RoundTripIff` |
| GraphViewComponent.Over | frontend/src/components/GraphView/GraphView.jsx:88-111 | hovering keeps the view aligned with the data; its effect is stated by `OverEffect` |
| GraphViewComponent.Out | frontend/src/components/GraphView/GraphView.jsx:112-135 | leaving keeps the view aligned with the data; its effect is stated by `OutForgetsOver` and `RoundTripIff` |
| GraphViewComponent.OverEffect | frontend/src/components/GraphView/GraphView.jsx:88-111 | the hovered circle turns `#ff7f50` with radius 15, incident lines `#ff7f50` width 2, and nothing else changes |
| GraphViewComponent.OutForgetsOver | frontend/src/components/GraphView/GraphView.jsx:88-135 | leaving after a hover gives the same view as leaving alone |
| GraphViewComponent.RoundTripIff | frontend/src/components/GraphView/GraphView.jsx:88-135 | hover then leave restores the view iff the hovered circle and its incident lines were at the base style |
| GraphViewComponent.RenderedRoundTrip | frontend/src/components/GraphView/GraphView.jsx:58-135 | on a freshly drawn view hover then leave restores it exactly |
| GraphViewComponent.HandleMouseOver | frontend/src/components/GraphView/GraphView.jsx:88-111 | the arrays become exactly `Over` of their old contents |
| GraphViewComponent.HandleMouseOut | frontend/src/components/GraphView/GraphView.jsx:112-135 | the arrays become exactly `Out` of their old contents |
| GraphViewComponent.PlaceCircles | frontend/src/components/GraphView/GraphView.jsx:145-147 | every circle's centre becomes its node's position, and nothing else about the circle changes |
| GraphViewComponent.TickJoinsCircles | frontend/src/components/GraphView/GraphView.jsx:138-148 | after a tick each line runs from its source circle's centre to its target circle's |
| GraphViewComponent.TickIdempotent | frontend/src/components/GraphView/GraphView.jsx:138-148 | a second tick without movement changes nothing |
| GraphViewComponent.Tick | frontend/src/components/GraphView/GraphView.jsx:138-148 | lines become `PlaceLines` and circles `PlaceCircles` of their old contents |
| GraphViewComponent.DragEnd | frontend/src/components/GraphView/GraphView.jsx:24-28 | the pin is released; with no other active gesture the alpha target becomes 0.3; nothing else changes |
| GraphViewComponent.CoolDown | frontend/src/components/GraphView/GraphView.jsx:30 | the delayed callback sets the alpha target to 0 whatever gestures are active |
| ContentPage.CloseFrom | frontend/src/components/content/ContentPage.jsx:37 | the lazy `.*?` stops at the first `]]` with no line terminator before it; if it finds none, every later `]]` has a terminator before it |
| ContentPage.MatchAt | frontend/src/components/content/ContentPage.jsx:37 | a match at p is `[[`, then text with no terminator and no `]]`, then `]]` |
| ContentPage.MatchAtComplete | frontend/src/components/content/ContentPage.jsx:37 | a `[[` from which a `]]` is reached without a line terminator starts a match, ending no later than that `]]` |
| ContentPage.FindFrom | frontend/src/components/content/ContentPage.jsx:37 | the match found is the leftmost one; none found means no position has a match |
| ContentPage.SplitFrom | frontend/src/components/content/ContentPage.jsx:37 | the split has an odd number of parts |
| ContentPage.ParseContent | frontend/src/components/content/ContentPage.jsx:34-35 | missing or empty text renders nothing |
| ContentPage.ParsePart | frontend/src/components/content/ContentPage.jsx:39-48 | a part becomes a link exactly when it holds a `[[...]]` match, and otherwise stays the text itself; a link text is at least four characters shorter than its part; what the link text is, is stated by `MatchPieceParses` |
| ContentPage.Href | frontend/src/components/content/ContentPage.jsx:43 | the route is `/content/` followed by the link text |
| ContentPage.SplitFromConcat | frontend/src/components/content/ContentPage.jsx:37 | joined, the parts of the split give back the text |
| ContentPage.SplitFromAlternates | frontend/src/components/content/ContentPage.jsx:37-41 | parts alternate: text parts hold no match, link parts are whole `[[text]]` matches |
| ContentPage.NoMatchInPiece | frontend/src/components/content/ContentPage.jsx:37-39 | a text part, matched on its own, has no match either |
| ContentPage.MatchPieceParses | frontend/src/components/content/ContentPage.jsx:39-41 | a link part, matched on its own, yields the text between its brackets |
| ContentPage.ParseRoundTrip | frontend/src/components/content/ContentPage.jsx:37-49 | reading the segments back, with links re-wrapped as `[[text]]`, gives exactly the original text |
| ContentPage.ParseAlternates | frontend/src/components/content/ContentPage.jsx:37-49 | the segments alternate text and links, odd-numbered segments being exactly the links |
| ContentPage.ParsedLinkTextsClean | frontend/src/components/content/ContentPage.jsx:37-41 | no link text holds a line terminator or `]]` |
| ContentPage.ParsedTextsPlain | frontend/src/components/content/ContentPage.jsx:37-48 | no text segment holds a complete `[[...]]` match |
| ContentPage.SingleLink | frontend/src/components/content/ContentPage.jsx:34-50 | a text with one plain link and no `[` around it parses as text, link, text |
| ContentPage.TestedContent | frontend/src/components/content/ContentPage.test.jsx:36 | the page test's sentence parses to its text, the link `internal-link`, and the rest |
| ContentPage.TestedHrefAndBlank | frontend/src/components/content/ContentPage.test.jsx:56-61 | `internal-link` leads to `/content/internal-link`; missing and empty text render nothing |
| ContentPage.RelatedNodes | frontend/src/components/content/ContentPage.jsx:81 | one entry per related id (an unknown id gives no item); its relation to the links is stated by `RelatedGraphIsStar` |
| ContentPage.RelatedLinks | frontend/src/components/content/ContentPage.jsx:82 | one link per related id; their ends are stated by `RelatedGraphIsStar` |
| ContentPage.RelatedGraphIsStar | frontend/src/components/content/ContentPage.jsx:80-85 | every link leaves the item and reaches the i-th related id; node i is what link i's target names; all links are incident to the item and every related id is its neighbour |
| ContentPage.LoadContent | frontend/src/components/content/ContentPage.jsx:15-24 | a known id gives its item and no error; an unknown id gives no item and the error `Content not found` |
| ContentPage.PageAfterLoad | frontend/src/components/content/ContentPage.jsx:52-89 | after loading, the page shows the error exactly for unknown ids; a known id shows its title, parsed body and star graph; it is never left loading |
| ContentPage.InitialPageLoading | frontend/src/components/content/ContentPage.jsx:63-65 | before the load has run the page shows the loading state |
| ContentPage.Render | frontend/src/components/content/ContentPage.jsx:52-68 | the error page shows exactly when there is a non-empty error; the loading state exactly when there is neither such an error nor an item; otherwise the item's own title and id |

## Left out

- The d3-force physics (springs, many-body charge, collision relaxation, velocity integration, alpha decay per tick): it lives in the d3 library and works in floating point. Only the configuration and the timer state are modelled.
- The zoom behaviour hook (`useZoomBehavior`), the mini graph, the composition root and the React state and markup components: they are not part of this model.
- DOM selections, CSS classes, `data-testid` attributes, element creation order, `raise()` of labels, label text-anchor/fill/pointer-event styles: the model keeps only the attribute values the graph logic reads or writes.
- Transitions (200 ms) in the stand-alone view: hover and leave are modelled at their end state, which is what the code applies directly in its test mode. Its test-mode drag without handlers is not modelled.
- Timers: the 300 ms `setTimeout` of the stand-alone view's drag end is modelled as the separate `GraphViewComponent.CoolDown` step, without the delay or its interleaving with other events.
- React lifecycle: effects run as plain method calls, the cleanup is a separate method, and `useCallback`/`useMemo` memoisation is not modelled.
- `event.sourceEvent.stopPropagation()` in the drag handlers: event propagation to the zoom behaviour is outside the model.
- Link resolution by `forceLink().id(d => d.id)`: links are given already resolved to node indices, and a link naming an unknown id (which d3 rejects) is not modelled.
- The stand-alone view's drag start and drag handlers and its cleanup: they do what `DragBehavior.DragStart`, `DragBehavior.Drag` and `ForceSimulation.Simulation.Stop` do, so they are not modelled a second time.
- The empty-selection guards inside the highlight hook's own neighbour helpers: the mouse-over handler has already returned when the nodes or links are missing, so they never decide anything there.
- The node `type` field and the content item `type` field: no modelled logic reads them.
- The stand-alone view's simulation object: its force values are modelled as `GraphViewComponent.ViewForces`; of the simulation itself only the timer state (alpha target, running) is modelled, through the hook's `ForceSimulation.Simulation` class, which `GraphViewComponent.DragEnd` and `CoolDown` change. Its own force set is not stored in that class, since it differs from the hook's.
- GraphLayout.Tick: the node positions the simulation would produce before the clamp are taken as given; the clamp and redraw are modelled, not the integration step.
- ForceSimulation.LabelWidth: a missing (`undefined` or `null`) title is modelled as the empty title; both give width 0.
- ContentPage.ParseContent: React rendering of the segments (the `Link` element, its class and key) is modelled as the `Segment` datatype plus `Href`, and the empty string returned for missing text as no segments.
- Navigation (`navigate('/')`, `navigate('/content/' + id)`): the routes are the `BACK_ROUTE` constant and `Href`; the router itself is not modelled.
- The content store is a finite map from id to item; the mock data set that fills it (`frontend/src/constants/mockData.js`) is not part of this model.

## Findings

| source | as written | input that shows it | evidently intended | confidence | as-written member | corrected member |
|---|---|---|---|---|---|---|
| frontend/src/hooks/useHighlightBehavior.js:86 | mouse-out resets every link's stroke width to 1, but the layout creates links with width `transform.k * 0.5` (frontend/src/hooks/useGraphLayout.js:14) | zoom scale 1, one link: created width 0.5, width 1 after hovering and leaving any node | leaving a node restores the created link width `k * 0.5` | medium, not executed | HighlightBehavior.HoverRoundTripAsWritten | HighlightBehavior.HoverRoundTripRestoring |
