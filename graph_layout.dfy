/**
 * Element creation and the per-tick position pass of the layout hook.
 */
module GraphLayout {
  import opened Numeric
  import opened Graph
  import opened Scene
  import opened GraphConstants
  import opened GraphHelpers
  import ZoomCalculations

  /** Distance kept between a node and the canvas edge on every tick. */
  const PADDING: real := 50.0

  lemma PaddedCanvasNonEmpty()
    ensures PADDING <= WIDTH - PADDING && PADDING <= HEIGHT - PADDING
    ensures WIDTH - PADDING == 650.0 && HEIGHT - PADDING == 450.0
  {
  }

  // ---- element creation ----

  /** A new link line: default stroke, width half the zoom level. */
  function NewLine(k: real): (l: Line)
    ensures l.stroke == LINK_DEFAULT && l.opacity == 1.0
    ensures l.strokeWidth == 1.0 <==> k == 2.0
    ensures 0.0 < k ==> 0.0 < l.strokeWidth
  {
    Line(LINK_DEFAULT, k * 0.5, 1.0, 0.0, 0.0, 0.0, 0.0)
  }

  /** A new node circle of the zoom-dependent radius and the default fill. */
  function NewCircle(nodeRadius: real): (c: Circle)
    ensures c.fill == NODE_DEFAULT && c.opacity == 1.0 && c.r == nodeRadius
  {
    Circle(NODE_DEFAULT, 1.0, nodeRadius, 0.0, 0.0)
  }

  /** A new label below its node, showing the node's title. */
  function NewLabel(node: Node, nodeRadius: real, k: real): (l: Label)
    ensures l.dy == nodeRadius + 10.0 && l.text == node.title
    ensures l.fontSize == ZoomCalculations.CalculateFontSize(k)
  {
    Label(nodeRadius + 10.0, Max(8.0, 12.0 * k), node.title)
  }

  function CreateLinks(links: seq<Link>, k: real): (r: seq<Line>)
    ensures |r| == |links|
  {
    seq(|links|, i requires 0 <= i < |links| => NewLine(k))
  }

  function CreateCircles(nodes: seq<Node>, nodeRadius: real): (r: seq<Circle>)
    ensures |r| == |nodes|
  {
    seq(|nodes|, i requires 0 <= i < |nodes| => NewCircle(nodeRadius))
  }

  function CreateLabels(nodes: seq<Node>, nodeRadius: real, k: real): (r: seq<Label>)
    ensures |r| == |nodes|
  {
    seq(|nodes|, i requires 0 <= i < |nodes| => NewLabel(nodes[i], nodeRadius, k))
  }

  /** Groups start untranslated; the first tick places them. */
  function CreateGroups(nodes: seq<Node>): (r: seq<Group>)
    ensures |r| == |nodes|
  {
    seq(|nodes|, i requires 0 <= i < |nodes| => Group(0.0, 0.0))
  }

  /** Labels are created at `nodeRadius + 10` below their node, with the font size the zoom calculator gives. */
  lemma CreatedLabelsAgree(nodes: seq<Node>, nodeRadius: real, k: real)
    ensures forall i :: 0 <= i < |nodes| ==>
      && CreateLabels(nodes, nodeRadius, k)[i].dy == nodeRadius + 10.0
      && CreateLabels(nodes, nodeRadius, k)[i].fontSize == ZoomCalculations.CalculateFontSize(k)
      && CreateLabels(nodes, nodeRadius, k)[i].fontSize >= 8.0
      && CreateLabels(nodes, nodeRadius, k)[i].text == nodes[i].title
  {
  }

  /** Lines are created with the default link colour and a width of half the zoom level. */
  lemma CreatedLinesAgree(links: seq<Link>, k: real)
    ensures forall i :: 0 <= i < |links| ==>
      CreateLinks(links, k)[i].stroke == LINK_DEFAULT && CreateLinks(links, k)[i].strokeWidth == k * 0.5
  {
    forall i | 0 <= i < |links|
      ensures CreateLinks(links, k)[i] == NewLine(k)
    {
    }
  }

  // ---- the per-tick pass ----

  predicate InCanvas(n: Node, width: real, height: real)
  {
    PADDING <= n.x <= width - PADDING && PADDING <= n.y <= height - PADDING
  }

  function ClampNode(n: Node, width: real, height: real): (r: Node)
    ensures r.(x := n.x, y := n.y) == n
    ensures 2.0 * PADDING <= width ==> PADDING <= r.x <= width - PADDING
    ensures 2.0 * PADDING <= height ==> PADDING <= r.y <= height - PADDING
    ensures InCanvas(n, width, height) ==> r == n
  {
    n.(x := CalculateNodePosition(n.x, width, PADDING), y := CalculateNodePosition(n.y, height, PADDING))
  }

  /** Every node moved into the padded canvas; nothing but `x` and `y` changes. */
  function ClampAll(nodes: seq<Node>, width: real, height: real): (r: seq<Node>)
    ensures |r| == |nodes|
    ensures forall i :: 0 <= i < |r| ==> r[i].(x := nodes[i].x, y := nodes[i].y) == nodes[i]
    ensures 2.0 * PADDING <= width ==> forall i :: 0 <= i < |r| ==> PADDING <= r[i].x <= width - PADDING
    ensures 2.0 * PADDING <= height ==> forall i :: 0 <= i < |r| ==> PADDING <= r[i].y <= height - PADDING
    ensures forall i :: 0 <= i < |r| && InCanvas(nodes[i], width, height) ==> r[i] == nodes[i]
  {
    seq(|nodes|, i requires 0 <= i < |nodes| => ClampNode(nodes[i], width, height))
  }

  function TranslateGroups(groups: seq<Group>, nodes: seq<Node>): (r: seq<Group>)
    requires |groups| == |nodes|
    ensures |r| == |groups|
    ensures forall i :: 0 <= i < |r| ==> r[i] == Group(nodes[i].x, nodes[i].y)
  {
    seq(|groups|, i requires 0 <= i < |groups| => Group(nodes[i].x, nodes[i].y))
  }

  /** Node arena, link lines and node groups: the state one tick of the layout writes. */
  datatype Layout = Layout(nodes: seq<Node>, lines: seq<Line>, groups: seq<Group>)

  predicate WellFormed(l: Layout, links: seq<Link>)
  {
    Resolved(|l.nodes|, links) && |l.lines| == |links| && |l.groups| == |l.nodes|
  }

  /** One tick: clamp the nodes, then draw lines and groups at the clamped positions. */
  function Tick(l: Layout, links: seq<Link>, width: real, height: real): (r: Layout)
    requires WellFormed(l, links)
    ensures WellFormed(r, links)
  {
    var nodes := ClampAll(l.nodes, width, height);
    Layout(nodes, PlaceLines(l.lines, nodes, links), TranslateGroups(l.groups, nodes))
  }

  /** Clamping twice is clamping once. */
  lemma ClampAllIdempotent(nodes: seq<Node>, width: real, height: real)
    ensures ClampAll(ClampAll(nodes, width, height), width, height) == ClampAll(nodes, width, height)
  {
    var once := ClampAll(nodes, width, height);
    forall i | 0 <= i < |nodes|
      ensures ClampAll(once, width, height)[i] == once[i]
    {
      BoundedPositionIdempotent(nodes[i].x, PADDING, width - PADDING);
      BoundedPositionIdempotent(nodes[i].y, PADDING, height - PADDING);
    }
  }

  /** Running the tick handler twice has the same effect as running it once. */
  lemma TickIdempotent(l: Layout, links: seq<Link>, width: real, height: real)
    requires WellFormed(l, links)
    ensures Tick(Tick(l, links, width, height), links, width, height) == Tick(l, links, width, height)
  {
    var once := Tick(l, links, width, height);
    ClampAllIdempotent(l.nodes, width, height);
    var twice := Tick(once, links, width, height);
    assert twice.nodes == once.nodes;
    assert twice.lines == once.lines;
    assert twice.groups == once.groups;
  }

  /** On the 700 x 500 canvas every node, every line end and every group ends up inside [50, 650] x [50, 450]. */
  lemma TickKeepsSceneInCanvas(l: Layout, links: seq<Link>)
    requires WellFormed(l, links)
    ensures var r := Tick(l, links, WIDTH, HEIGHT);
      && (forall i :: 0 <= i < |r.nodes| ==> 50.0 <= r.nodes[i].x <= 650.0 && 50.0 <= r.nodes[i].y <= 450.0)
      && (forall i :: 0 <= i < |r.lines| ==>
            50.0 <= r.lines[i].x1 <= 650.0 && 50.0 <= r.lines[i].y1 <= 450.0
            && 50.0 <= r.lines[i].x2 <= 650.0 && 50.0 <= r.lines[i].y2 <= 450.0)
      && (forall i :: 0 <= i < |r.groups| ==> 50.0 <= r.groups[i].tx <= 650.0 && 50.0 <= r.groups[i].ty <= 450.0)
  {
  }

  /**
   * `updatePositions`: clamp every node in place, then move the link lines and
   * the node groups to the new positions.
   */
  method UpdatePositions(nodes: array<Node>, links: seq<Link>, lines: array<Line>, groups: array<Group>,
                         width: real, height: real)
    requires Resolved(nodes.Length, links) && lines.Length == |links| && groups.Length == nodes.Length
    modifies nodes, lines, groups
    ensures Layout(nodes[..], lines[..], groups[..])
         == Tick(Layout(old(nodes[..]), old(lines[..]), old(groups[..])), links, width, height)
  {
    ClampNodes(nodes, width, height);
    DrawLines(lines, nodes, links);
    DrawGroups(groups, nodes);
  }

  /** The `forEach` over the node data: overwrite `x`, then `y`, of each node. */
  method ClampNodes(nodes: array<Node>, width: real, height: real)
    modifies nodes
    ensures nodes[..] == ClampAll(old(nodes[..]), width, height)
  {
    var i := 0;
    while i < nodes.Length
      invariant 0 <= i <= nodes.Length
      invariant forall j :: 0 <= j < i ==> nodes[j] == ClampNode(old(nodes[j]), width, height)
      invariant forall j :: i <= j < nodes.Length ==> nodes[j] == old(nodes[j])
    {
      nodes[i] := nodes[i].(x := Max(PADDING, Min(width - PADDING, nodes[i].x)));
      nodes[i] := nodes[i].(y := Max(PADDING, Min(height - PADDING, nodes[i].y)));
      i := i + 1;
    }
  }

  /** Set `x1, y1, x2, y2` of every line from its link's endpoint nodes. */
  method DrawLines(lines: array<Line>, nodes: array<Node>, links: seq<Link>)
    requires Resolved(nodes.Length, links) && lines.Length == |links|
    modifies lines
    ensures lines[..] == PlaceLines(old(lines[..]), nodes[..], links)
  {
    var i := 0;
    while i < lines.Length
      invariant 0 <= i <= lines.Length
      invariant forall j :: 0 <= j < i ==> lines[j] == AtEndpoints(old(lines[j]), nodes[..], links[j])
      invariant forall j :: i <= j < lines.Length ==> lines[j] == old(lines[j])
    {
      var link := links[i];
      lines[i] := lines[i].(x1 := nodes[link.source].x, y1 := nodes[link.source].y,
                            x2 := nodes[link.target].x, y2 := nodes[link.target].y);
      i := i + 1;
    }
  }

  /** Translate every node group to its node's position. */
  method DrawGroups(groups: array<Group>, nodes: array<Node>)
    requires groups.Length == nodes.Length
    modifies groups
    ensures groups[..] == TranslateGroups(old(groups[..]), nodes[..])
  {
    var i := 0;
    while i < groups.Length
      invariant 0 <= i <= groups.Length
      invariant forall j :: 0 <= j < i ==> groups[j] == Group(nodes[j].x, nodes[j].y)
    {
      groups[i] := Group(nodes[i].x, nodes[i].y);
      i := i + 1;
    }
  }
}
