/**
 * The stand-alone graph view component: it renders one circle per node and one line
 * per link with fixed styles, highlights a hovered node and its links, follows the
 * simulation's ticks, and lets nodes be dragged.
 */
module GraphViewComponent {
  import opened Wrappers
  import opened Graph
  import opened Scene
  import opened GraphHelpers
  import opened ForceSimulation
  import GraphLayout

  const DEFAULT_WIDTH: real := 800.0
  const DEFAULT_HEIGHT: real := 600.0
  const RADIUS: real := 10.0
  const HOVER_RADIUS: real := 15.0
  const FILL: string := "#69b3a2"
  const HOVER_FILL: string := "#ff7f50"
  const STROKE: string := "#999"
  const HOVER_STROKE: string := "#ff7f50"

  // ---- the simulation this component configures ----

  datatype ViewForces = ViewForces(
    linkDistance: real, linkStrength: real,
    chargeStrength: real, distanceMin: real, distanceMax: real,
    centerX: real, centerY: real, centerStrength: real,
    collideRadius: real, collideStrength: real,
    velocityDecay: real)

  function ViewForcesFor(width: real := DEFAULT_WIDTH, height: real := DEFAULT_HEIGHT): (f: ViewForces)
    ensures f.chargeStrength < 0.0 && 0.0 < f.distanceMin < f.distanceMax
    ensures 2.0 * f.centerX == width && 2.0 * f.centerY == height
  {
    ViewForces(50.0, 0.7, -100.0, 10.0, 200.0, width / 2.0, height / 2.0, 0.05, 15.0, 0.7, 0.6)
  }

  /** Only the centre follows the canvas; on the default canvas it is (400, 300). */
  lemma ViewForcesCentred(width: real, height: real, width2: real, height2: real)
    ensures ViewForcesFor(width, height).centerX == width / 2.0 && ViewForcesFor(width, height).centerY == height / 2.0
    ensures ViewForcesFor(width, height).(centerX := 0.0, centerY := 0.0)
         == ViewForcesFor(width2, height2).(centerX := 0.0, centerY := 0.0)
    ensures ViewForcesFor().centerX == 400.0 && ViewForcesFor().centerY == 300.0
  {
  }

  lemma ViewForcesValues()
    ensures var f := ViewForcesFor();
      && f.linkDistance == 50.0 && f.linkStrength == 0.7
      && f.chargeStrength == -100.0 && f.distanceMin == 10.0 && f.distanceMax == 200.0
      && f.centerStrength == 0.05 && f.collideRadius == 15.0 && f.collideStrength == 0.7
      && f.velocityDecay == 0.6
  {
  }

  // ---- the rendered elements ----

  /** The component's circles and lines, aligned with the data's nodes and links. */
  datatype View = View(circles: seq<Circle>, lines: seq<Line>)

  predicate Fits(v: View, nodes: seq<Node>, links: seq<Ends>)
  {
    |v.circles| == |nodes| && |v.lines| == |links|
  }

  function CreatedCircle(): Circle
  {
    Circle(FILL, 1.0, RADIUS, 0.0, 0.0)
  }

  function CreatedLine(): Line
  {
    Line(STROKE, 1.0, 1.0, 0.0, 0.0, 0.0, 0.0)
  }

  /** What a run of the effect draws after clearing the canvas. */
  function Rendered(nodeCount: nat, linkCount: nat): (v: View)
    ensures |v.circles| == nodeCount && |v.lines| == linkCount
    ensures forall i :: 0 <= i < nodeCount ==> v.circles[i].fill == FILL && v.circles[i].r == RADIUS
    ensures forall i :: 0 <= i < linkCount ==> v.lines[i].stroke == STROKE && v.lines[i].strokeWidth == 1.0
  {
    View(seq(nodeCount, _ => CreatedCircle()), seq(linkCount, _ => CreatedLine()))
  }

  datatype Mounted = Mounted(circles: array<Circle>, lines: array<Line>, forces: ViewForces)

  /** One run of the effect: nothing without data or without a mounted canvas; otherwise a fresh drawing and simulation. */
  method Effect(data: Option<GraphInput>, mounted: bool, width: real := DEFAULT_WIDTH, height: real := DEFAULT_HEIGHT)
    returns (r: Option<Mounted>)
    ensures data.None? || !mounted ==> r.None?
    ensures data.Some? && mounted ==>
      && r.Some? && fresh(r.value.circles) && fresh(r.value.lines)
      && View(r.value.circles[..], r.value.lines[..]) == Rendered(data.value.nodes.Length, |data.value.links|)
      && r.value.forces == ViewForcesFor(width, height)
  {
    if data.None? || !mounted {
      return None;
    }
    var circles := new Circle[data.value.nodes.Length](_ => CreatedCircle());
    var lines := new Line[|data.value.links|](_ => CreatedLine());
    r := Some(Mounted(circles, lines, ViewForcesFor(width, height)));
  }

  // ---- hover ----

  function HighlightIncident(lines: seq<Line>, links: seq<Ends>, nodeId: string): (r: seq<Line>)
    requires |lines| == |links|
    ensures |r| == |lines|
  {
    seq(|lines|, i requires 0 <= i < |lines| =>
      if IsIncident(links[i], nodeId) then lines[i].(stroke := HOVER_STROKE, strokeWidth := 2.0) else lines[i])
  }

  function RestoreIncident(lines: seq<Line>, links: seq<Ends>, nodeId: string): (r: seq<Line>)
    requires |lines| == |links|
    ensures |r| == |lines|
  {
    seq(|lines|, i requires 0 <= i < |lines| =>
      if IsIncident(links[i], nodeId) then lines[i].(stroke := STROKE, strokeWidth := 1.0) else lines[i])
  }

  /** `mouseover` on node `h`, at the end of its transitions. */
  function Over(v: View, nodes: seq<Node>, links: seq<Ends>, h: nat): (r: View)
    requires Fits(v, nodes, links) && h < |nodes|
    ensures Fits(r, nodes, links)
  {
    View(v.circles[h := v.circles[h].(fill := HOVER_FILL, r := HOVER_RADIUS)], HighlightIncident(v.lines, links, nodes[h].id))
  }

  /** `mouseout` from node `h`, at the end of its transitions. */
  function Out(v: View, nodes: seq<Node>, links: seq<Ends>, h: nat): (r: View)
    requires Fits(v, nodes, links) && h < |nodes|
    ensures Fits(r, nodes, links)
  {
    View(v.circles[h := v.circles[h].(fill := FILL, r := RADIUS)], RestoreIncident(v.lines, links, nodes[h].id))
  }

  /** Hovering restyles the hovered circle and the links touching it, and nothing else. */
  lemma OverEffect(v: View, nodes: seq<Node>, links: seq<Ends>, h: nat)
    requires Fits(v, nodes, links) && h < |nodes|
    ensures var r := Over(v, nodes, links, h);
      && r.circles[h] == v.circles[h].(fill := HOVER_FILL, r := HOVER_RADIUS)
      && (forall i :: 0 <= i < |nodes| && i != h ==> r.circles[i] == v.circles[i])
      && (forall i :: 0 <= i < |links| ==>
            if IsIncident(links[i], nodes[h].id)
            then r.lines[i] == v.lines[i].(stroke := HOVER_STROKE, strokeWidth := 2.0)
            else r.lines[i] == v.lines[i])
  {
  }

  /** Leaving a node undoes everything hovering it changed: the hover leaves no trace. */
  lemma OutForgetsOver(v: View, nodes: seq<Node>, links: seq<Ends>, h: nat)
    requires Fits(v, nodes, links) && h < |nodes|
    ensures Out(Over(v, nodes, links, h), nodes, links, h) == Out(v, nodes, links, h)
  {
    var a := Out(Over(v, nodes, links, h), nodes, links, h);
    var b := Out(v, nodes, links, h);
    assert a.circles == b.circles;
    assert a.lines == b.lines;
  }

  /** A hover round trip restores the view exactly when the hovered circle and its links were at their base style. */
  lemma RoundTripIff(v: View, nodes: seq<Node>, links: seq<Ends>, h: nat)
    requires Fits(v, nodes, links) && h < |nodes|
    ensures Out(Over(v, nodes, links, h), nodes, links, h) == v
      <==> (&& v.circles[h].fill == FILL && v.circles[h].r == RADIUS
            && forall i :: 0 <= i < |links| && IsIncident(links[i], nodes[h].id) ==>
                 v.lines[i].stroke == STROKE && v.lines[i].strokeWidth == 1.0)
  {
    var r := Out(Over(v, nodes, links, h), nodes, links, h);
    if r == v {
      assert r.circles[h] == v.circles[h];
      forall i | 0 <= i < |links| && IsIncident(links[i], nodes[h].id)
        ensures v.lines[i].stroke == STROKE && v.lines[i].strokeWidth == 1.0
      {
        assert r.lines[i] == v.lines[i];
      }
    }
    if && v.circles[h].fill == FILL && v.circles[h].r == RADIUS
       && forall i :: 0 <= i < |links| && IsIncident(links[i], nodes[h].id) ==>
            v.lines[i].stroke == STROKE && v.lines[i].strokeWidth == 1.0
    {
      assert r.circles == v.circles;
      assert r.lines == v.lines;
    }
  }

  /** On a freshly drawn view, hovering a node and leaving it restores the drawing. */
  lemma RenderedRoundTrip(nodes: seq<Node>, links: seq<Ends>, h: nat)
    requires h < |nodes|
    ensures Out(Over(Rendered(|nodes|, |links|), nodes, links, h), nodes, links, h) == Rendered(|nodes|, |links|)
  {
    RoundTripIff(Rendered(|nodes|, |links|), nodes, links, h);
  }

  method HandleMouseOver(circles: array<Circle>, lines: array<Line>, nodes: seq<Node>, links: seq<Ends>, h: nat)
    requires circles.Length == |nodes| && lines.Length == |links| && h < |nodes|
    modifies circles, lines
    ensures View(circles[..], lines[..]) == Over(old(View(circles[..], lines[..])), nodes, links, h)
  {
    circles[h] := circles[h].(fill := HOVER_FILL, r := HOVER_RADIUS);
    var j := 0;
    while j < lines.Length
      invariant 0 <= j <= lines.Length
      invariant lines[..j] == HighlightIncident(old(lines[..]), links, nodes[h].id)[..j]
      invariant lines[j..] == old(lines[..])[j..]
      modifies lines
    {
      if IsIncident(links[j], nodes[h].id) {
        lines[j] := lines[j].(stroke := HOVER_STROKE, strokeWidth := 2.0);
      }
      assert lines[..j + 1] == lines[..j] + [lines[j]];
      j := j + 1;
    }
  }

  method HandleMouseOut(circles: array<Circle>, lines: array<Line>, nodes: seq<Node>, links: seq<Ends>, h: nat)
    requires circles.Length == |nodes| && lines.Length == |links| && h < |nodes|
    modifies circles, lines
    ensures View(circles[..], lines[..]) == Out(old(View(circles[..], lines[..])), nodes, links, h)
  {
    circles[h] := circles[h].(fill := FILL, r := RADIUS);
    var j := 0;
    while j < lines.Length
      invariant 0 <= j <= lines.Length
      invariant lines[..j] == RestoreIncident(old(lines[..]), links, nodes[h].id)[..j]
      invariant lines[j..] == old(lines[..])[j..]
      modifies lines
    {
      if IsIncident(links[j], nodes[h].id) {
        lines[j] := lines[j].(stroke := STROKE, strokeWidth := 1.0);
      }
      assert lines[..j + 1] == lines[..j] + [lines[j]];
      j := j + 1;
    }
  }

  // ---- ticks ----

  /** Every circle moved to its node's position; styles are left alone. */
  function PlaceCircles(circles: seq<Circle>, nodes: seq<Node>): (r: seq<Circle>)
    requires |circles| == |nodes|
    ensures |r| == |circles|
    ensures forall i :: 0 <= i < |r| ==> r[i].cx == nodes[i].x && r[i].cy == nodes[i].y
    ensures forall i :: 0 <= i < |r| ==> r[i].(cx := circles[i].cx, cy := circles[i].cy) == circles[i]
  {
    seq(|circles|, i requires 0 <= i < |circles| => circles[i].(cx := nodes[i].x, cy := nodes[i].y))
  }

  /** After a tick every line runs from its source node's circle centre to its target node's. */
  lemma TickJoinsCircles(circles: seq<Circle>, lines: seq<Line>, nodes: seq<Node>, links: seq<Link>)
    requires |circles| == |nodes| && |lines| == |links| && Resolved(|nodes|, links)
    ensures var cs := PlaceCircles(circles, nodes);
      var ls := PlaceLines(lines, nodes, links);
      forall i :: 0 <= i < |ls| ==>
        && ls[i].x1 == cs[links[i].source].cx && ls[i].y1 == cs[links[i].source].cy
        && ls[i].x2 == cs[links[i].target].cx && ls[i].y2 == cs[links[i].target].cy
  {
  }

  /** A second tick with the nodes where they are changes nothing. */
  lemma TickIdempotent(circles: seq<Circle>, lines: seq<Line>, nodes: seq<Node>, links: seq<Link>)
    requires |circles| == |nodes| && |lines| == |links| && Resolved(|nodes|, links)
    ensures PlaceCircles(PlaceCircles(circles, nodes), nodes) == PlaceCircles(circles, nodes)
    ensures PlaceLines(PlaceLines(lines, nodes, links), nodes, links) == PlaceLines(lines, nodes, links)
  {
    var ls := PlaceLines(lines, nodes, links);
    forall i | 0 <= i < |ls|
      ensures PlaceLines(ls, nodes, links)[i] == ls[i]
    {
    }
  }

  method Tick(circles: array<Circle>, lines: array<Line>, nodes: array<Node>, links: seq<Link>)
    requires circles.Length == nodes.Length && lines.Length == |links| && Resolved(nodes.Length, links)
    modifies circles, lines
    ensures lines[..] == PlaceLines(old(lines[..]), nodes[..], links)
    ensures circles[..] == PlaceCircles(old(circles[..]), nodes[..])
  {
    GraphLayout.DrawLines(lines, nodes, links);
    var j := 0;
    while j < circles.Length
      invariant 0 <= j <= circles.Length
      invariant circles[..j] == PlaceCircles(old(circles[..]), nodes[..])[..j]
      invariant circles[j..] == old(circles[..])[j..]
      modifies circles
    {
      circles[j] := circles[j].(cx := nodes[j].x, cy := nodes[j].y);
      assert circles[..j + 1] == circles[..j] + [circles[j]];
      j := j + 1;
    }
  }

  // ---- drag end, and its delayed cool-down ----

  /** `end`: the node is released and, for the last active gesture, the simulation is kept warm. */
  method DragEnd(sim: Simulation, nodes: array<Node>, i: nat, active: nat)
    requires i < nodes.Length
    modifies sim, nodes
    ensures nodes[..] == old(nodes[..])[i := old(nodes[i]).(fx := None, fy := None)]
    ensures sim.alphaTarget == (if active == 0 then 0.3 else old(sim.alphaTarget))
    ensures sim.nodes == old(sim.nodes) && sim.config == old(sim.config) && sim.alpha == old(sim.alpha)
    ensures sim.running == old(sim.running)
  {
    if active == 0 {
      sim.SetAlphaTarget(0.3);
    }
    nodes[i] := nodes[i].(fx := None);
    nodes[i] := nodes[i].(fy := None);
  }

  /** The callback scheduled by `end`: it lets the simulation cool whatever gestures are still active. */
  method CoolDown(sim: Simulation)
    modifies sim
    ensures sim.alphaTarget == 0.0
    ensures sim.nodes == old(sim.nodes) && sim.config == old(sim.config) && sim.alpha == old(sim.alpha)
    ensures sim.running == old(sim.running)
  {
    sim.SetAlphaTarget(0.0);
  }
}
