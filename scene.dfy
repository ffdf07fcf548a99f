/**
 * SVG elements as records of the attributes the graph view writes. An attribute
 * no code has written holds its SVG initial value: opacity 1, coordinates 0.
 */
module Scene {
  import opened Graph

  /** A node circle. */
  datatype Circle = Circle(fill: string, opacity: real, r: real, cx: real, cy: real)

  /** A link line. */
  datatype Line = Line(stroke: string, strokeWidth: real, opacity: real, x1: real, y1: real, x2: real, y2: real)

  /** A node's text label; `fontSize` is in pixels. */
  datatype Label = Label(dy: real, fontSize: real, text: string)

  /** A node group, drawn translated to `(tx, ty)`. */
  datatype Group = Group(tx: real, ty: real)

  /** The line drawn from the link's source node to its target node. */
  function AtEndpoints(l: Line, nodes: seq<Node>, link: Link): (r: Line)
    requires link.source < |nodes| && link.target < |nodes|
  {
    l.(x1 := nodes[link.source].x, y1 := nodes[link.source].y, x2 := nodes[link.target].x, y2 := nodes[link.target].y)
  }

  /** Every line redrawn at its link's endpoints; styles are left alone. */
  function PlaceLines(lines: seq<Line>, nodes: seq<Node>, links: seq<Link>): (r: seq<Line>)
    requires |lines| == |links| && Resolved(|nodes|, links)
    ensures |r| == |lines|
    ensures forall i :: 0 <= i < |r| ==> r[i].x1 == nodes[links[i].source].x && r[i].y1 == nodes[links[i].source].y
    ensures forall i :: 0 <= i < |r| ==> r[i].x2 == nodes[links[i].target].x && r[i].y2 == nodes[links[i].target].y
    ensures forall i :: 0 <= i < |r| ==>
      r[i].stroke == lines[i].stroke && r[i].strokeWidth == lines[i].strokeWidth && r[i].opacity == lines[i].opacity
  {
    seq(|lines|, i requires 0 <= i < |lines| => AtEndpoints(lines[i], nodes, links[i]))
  }
}
