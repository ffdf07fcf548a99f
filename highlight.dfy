/**
 * Hover highlighting: mouse-over dims the whole scene, then restores the hovered
 * node's one-hop neighbourhood and incident links and highlights the hovered
 * node; mouse-out resets every element to the default styling.
 */
module HighlightBehavior {
  import opened Graph
  import opened Scene
  import opened GraphConstants
  import opened GraphHelpers
  import opened GraphLayout

  /** The styles of every node circle, link line and label of the scene. */
  datatype Styles = Styles(circles: seq<Circle>, lines: seq<Line>, labels: seq<Label>)

  /** Circles and labels follow the nodes, lines follow the links; `h` is a node. */
  predicate Aligned(s: Styles, nodes: seq<Node>, links: seq<Ends>, h: nat)
  {
    |s.circles| == |nodes| == |s.labels| && |s.lines| == |links| && h < |nodes|
  }

  // ---- mouse-over ----

  function OverCircle(c: Circle, i: nat, h: nat, nodes: seq<Node>, links: seq<Ends>, nodeRadius: real): Circle
    requires i < |nodes| && h < |nodes|
  {
    if i == h then c.(fill := NODE_HIGHLIGHT, r := nodeRadius * 1.5, opacity := 1.0)
    else if InNeighbourhood(nodes[h].id, nodes[i].id, links) then c.(fill := NODE_DEFAULT, opacity := 1.0)
    else c.(fill := NODE_DIMMED, opacity := 0.4)
  }

  function OverLine(l: Line, e: Ends, hoveredId: string): Line
  {
    if IsIncident(e, hoveredId) then l.(stroke := LINK_HIGHLIGHT, strokeWidth := 2.0, opacity := 1.0)
    else l.(stroke := LINK_DEFAULT, opacity := 0.2)
  }

  /** The scene after hovering node `h`, element by element. */
  function Over(s: Styles, nodes: seq<Node>, links: seq<Ends>, h: nat, nodeRadius: real): (r: Styles)
    requires Aligned(s, nodes, links, h)
    ensures Aligned(r, nodes, links, h)
  {
    Styles(
      seq(|s.circles|, i requires 0 <= i < |s.circles| => OverCircle(s.circles[i], i, h, nodes, links, nodeRadius)),
      seq(|s.lines|, i requires 0 <= i < |s.lines| => OverLine(s.lines[i], links[i], nodes[h].id)),
      s.labels[h := s.labels[h].(dy := nodeRadius * 3.0 + 1.0)])
  }

  // ---- mouse-out ----

  function OutCircles(cs: seq<Circle>, nodeRadius: real): (r: seq<Circle>)
    ensures |r| == |cs|
  {
    seq(|cs|, i requires 0 <= i < |cs| => cs[i].(fill := NODE_DEFAULT, opacity := 1.0, r := nodeRadius))
  }

  function OutLines(ls: seq<Line>): (r: seq<Line>)
    ensures |r| == |ls|
  {
    seq(|ls|, i requires 0 <= i < |ls| => ls[i].(stroke := LINK_DEFAULT, strokeWidth := 1.0, opacity := 1.0))
  }

  /** The scene after the mouse leaves node `h`. */
  function Out(s: Styles, h: nat, nodeRadius: real): (r: Styles)
    requires h < |s.labels|
    ensures |r.circles| == |s.circles| && |r.lines| == |s.lines| && |r.labels| == |s.labels|
  {
    Styles(OutCircles(s.circles, nodeRadius), OutLines(s.lines), s.labels[h := s.labels[h].(dy := nodeRadius + 10.0)])
  }

  // ---- properties ----

  /** Mouse-over as the three kinds of node see it, plus the label and the links. */
  lemma OverEffect(s: Styles, nodes: seq<Node>, links: seq<Ends>, h: nat, nodeRadius: real)
    requires Aligned(s, nodes, links, h)
    ensures var r := Over(s, nodes, links, h, nodeRadius);
      && r.circles[h].fill == NODE_HIGHLIGHT && r.circles[h].r == 1.5 * nodeRadius && r.circles[h].opacity == 1.0
      && r.labels[h].dy == 3.0 * nodeRadius + 1.0
      && (forall i :: 0 <= i < |nodes| && i != h ==>
            r.circles[i].r == s.circles[i].r
            && (InNeighbourhood(nodes[h].id, nodes[i].id, links) ==>
                  r.circles[i].fill == NODE_DEFAULT && r.circles[i].opacity == 1.0)
            && (!InNeighbourhood(nodes[h].id, nodes[i].id, links) ==>
                  r.circles[i].fill == NODE_DIMMED && r.circles[i].opacity == 0.4))
      && (forall i :: 0 <= i < |links| && IsIncident(links[i], nodes[h].id) ==>
            r.lines[i].stroke == LINK_HIGHLIGHT && r.lines[i].strokeWidth == 2.0 && r.lines[i].opacity == 1.0)
      && (forall i :: 0 <= i < |links| && !IsIncident(links[i], nodes[h].id) ==>
            r.lines[i].stroke == LINK_DEFAULT && r.lines[i].strokeWidth == s.lines[i].strokeWidth
            && r.lines[i].opacity == 0.2)
      && (forall i :: 0 <= i < |nodes| && i != h ==> r.labels[i] == s.labels[i])
  {
  }

  /** Mouse-out forgets the hover: whatever node was hovered before, the circles and lines end the same. */
  lemma {:induction false} OutForgetsHover(s: Styles, nodes: seq<Node>, links: seq<Ends>, hovered: nat, h: nat,
                                             nodeRadius: real, hoverRadius: real)
    requires Aligned(s, nodes, links, hovered) && h < |nodes|
    ensures Out(Over(s, nodes, links, hovered, hoverRadius), h, nodeRadius).circles == Out(s, h, nodeRadius).circles
    ensures Out(Over(s, nodes, links, hovered, hoverRadius), h, nodeRadius).lines == Out(s, h, nodeRadius).lines
    ensures hovered == h ==>
      Out(Over(s, nodes, links, hovered, hoverRadius), h, nodeRadius) == Out(s, h, nodeRadius)
  {
    var o := Over(s, nodes, links, hovered, hoverRadius);
    assert OutCircles(o.circles, nodeRadius) == OutCircles(s.circles, nodeRadius);
    assert OutLines(o.lines) == OutLines(s.lines);
    if hovered == h {
      assert o.labels[h := o.labels[h].(dy := nodeRadius + 10.0)] == s.labels[h := s.labels[h].(dy := nodeRadius + 10.0)];
    }
  }

  /** After mouse-out every node and link has the default styling, and doing it twice is doing it once. */
  lemma OutResetsEverything(s: Styles, h: nat, nodeRadius: real)
    requires h < |s.labels|
    ensures var r := Out(s, h, nodeRadius);
      && (forall i :: 0 <= i < |r.circles| ==>
            r.circles[i].fill == NODE_DEFAULT && r.circles[i].opacity == 1.0 && r.circles[i].r == nodeRadius)
      && (forall i :: 0 <= i < |r.lines| ==>
            r.lines[i].stroke == LINK_DEFAULT && r.lines[i].strokeWidth == 1.0 && r.lines[i].opacity == 1.0)
      && r.labels[h].dy == nodeRadius + 10.0
      && Out(r, h, nodeRadius) == r
  {
    var r := Out(s, h, nodeRadius);
    assert OutCircles(r.circles, nodeRadius) == r.circles;
    assert OutLines(r.lines) == r.lines;
  }

  /** The label offset mouse-out restores is the one the label was created with. */
  lemma OutRestoresCreatedLabelOffset(s: Styles, nodes: seq<Node>, h: nat, nodeRadius: real, k: real)
    requires h < |s.labels| && h < |nodes|
    ensures Out(s, h, nodeRadius).labels[h].dy == CreateLabels(nodes, nodeRadius, k)[h].dy
  {
  }

  // ---- the arena seen through link ids ----

  /** Node ids are unique within the arena. */
  predicate DistinctIds(nodes: seq<Node>)
  {
    forall i, j :: 0 <= i < j < |nodes| ==> nodes[i].id != nodes[j].id
  }

  /**
   * With unique ids, the id test the hover code applies to a link picks out exactly
   * the links whose source or target index is the hovered node.
   */
  lemma ArenaIncidence(nodes: seq<Node>, links: seq<Link>, h: nat)
    requires Resolved(|nodes|, links) && h < |nodes| && DistinctIds(nodes)
    ensures var ends := EndsOf(nodes, links);
      forall i :: 0 <= i < |links| ==>
        (IsIncident(ends[i], nodes[h].id) <==> links[i].source == h || links[i].target == h)
  {
    var ends := EndsOf(nodes, links);
    forall i | 0 <= i < |links|
      ensures IsIncident(ends[i], nodes[h].id) <==> links[i].source == h || links[i].target == h
    {
      SameIdSameNode(nodes, links[i].source, h);
      SameIdSameNode(nodes, links[i].target, h);
    }
  }

  /**
   * With unique ids, node `j` is in the hovered node's neighbourhood exactly when it is
   * the hovered node or some link joins the two indices, in either direction.
   */
  lemma ArenaNeighbourhood(nodes: seq<Node>, links: seq<Link>, h: nat, j: nat)
    requires Resolved(|nodes|, links) && h < |nodes| && j < |nodes| && DistinctIds(nodes)
    ensures InNeighbourhood(nodes[h].id, nodes[j].id, EndsOf(nodes, links))
        <==> j == h || exists i :: 0 <= i < |links| && JoinsAt(links[i], h, j)
  {
    SameIdSameNode(nodes, j, h);
    if IsConnected(nodes[h].id, nodes[j].id, EndsOf(nodes, links)) {
      ConnectedIdsJoinIndices(nodes, links, h, j);
    }
    if exists i :: 0 <= i < |links| && JoinsAt(links[i], h, j) {
      var i :| 0 <= i < |links| && JoinsAt(links[i], h, j);
      assert Joins(EndsOf(nodes, links)[i], nodes[h].id, nodes[j].id);
    }
  }

  /** A link joining the two ids joins the two indices. */
  lemma ConnectedIdsJoinIndices(nodes: seq<Node>, links: seq<Link>, h: nat, j: nat)
    requires Resolved(|nodes|, links) && h < |nodes| && j < |nodes| && DistinctIds(nodes)
    requires IsConnected(nodes[h].id, nodes[j].id, EndsOf(nodes, links))
    ensures exists i :: 0 <= i < |links| && JoinsAt(links[i], h, j)
  {
    var ends := EndsOf(nodes, links);
    var i :| 0 <= i < |ends| && Joins(ends[i], nodes[h].id, nodes[j].id);
    var l := links[i];
    assert ends[i] == Ends(nodes[l.source].id, nodes[l.target].id);
    SameIdSameNode(nodes, l.source, h);
    SameIdSameNode(nodes, l.target, j);
    SameIdSameNode(nodes, l.source, j);
    SameIdSameNode(nodes, l.target, h);
    assert JoinsAt(links[i], h, j);
  }

  /** Link `l` joins the nodes at indices `a` and `b`, in either direction. */
  predicate JoinsAt(l: Link, a: nat, b: nat)
  {
    (l.source == a && l.target == b) || (l.source == b && l.target == a)
  }

  lemma SameIdSameNode(nodes: seq<Node>, a: nat, b: nat)
    requires a < |nodes| && b < |nodes| && DistinctIds(nodes)
    ensures nodes[a].id == nodes[b].id <==> a == b
  {
    if a < b {
      assert nodes[a].id != nodes[b].id;
    } else if b < a {
      assert nodes[b].id != nodes[a].id;
    }
  }

  // ---- the hover round trip ----

  /** Every style attribute holds the value element creation gave it (positions may differ). */
  predicate CreatedStyles(s: Styles, nodeRadius: real, k: real)
  {
    && (forall i :: 0 <= i < |s.circles| ==> s.circles[i] == NewCircle(nodeRadius))
    && (forall i :: 0 <= i < |s.lines| ==>
          s.lines[i].stroke == LINK_DEFAULT && s.lines[i].strokeWidth == k * 0.5 && s.lines[i].opacity == 1.0)
    && (forall i :: 0 <= i < |s.labels| ==> s.labels[i].dy == nodeRadius + 10.0)
  }

  lemma CreatedScene(nodes: seq<Node>, links: seq<Link>, nodeRadius: real, k: real)
    ensures CreatedStyles(Styles(CreateCircles(nodes, nodeRadius), CreateLinks(links, k),
                                 CreateLabels(nodes, nodeRadius, k)), nodeRadius, k)
  {
    var lines := CreateLinks(links, k);
    forall i | 0 <= i < |lines|
      ensures lines[i].stroke == LINK_DEFAULT && lines[i].strokeWidth == k * 0.5 && lines[i].opacity == 1.0
    {
      assert lines[i] == NewLine(k);
    }
  }

  /**
   * As written, mouse-out resets every line to width 1 while element creation
   * drew it at `k * 0.5`: hovering and leaving a node restores the created
   * scene exactly when there is no link or the zoom level is 2.
   */
  lemma {:induction false} HoverRoundTripAsWritten(s: Styles, nodes: seq<Node>, links: seq<Ends>, h: nat,
                                                   nodeRadius: real, k: real)
    requires Aligned(s, nodes, links, h) && CreatedStyles(s, nodeRadius, k)
    ensures Out(Over(s, nodes, links, h, nodeRadius), h, nodeRadius) == s <==> (|links| == 0 || k == 2.0)
  {
    var r := Out(Over(s, nodes, links, h, nodeRadius), h, nodeRadius);
    assert r.circles == s.circles;
    assert r.labels == s.labels;
    if |links| == 0 || k == 2.0 {
      assert r.lines == s.lines;
    } else {
      assert r.lines[0].strokeWidth == 1.0 != s.lines[0].strokeWidth;
    }
  }

  /** The smallest scene that shows it: at the default zoom one link is 0.5 wide before and 1 wide after. */
  lemma HoverRoundTripCounterexample(a: Node, b: Node)
    ensures var s := Styles([NewCircle(10.0), NewCircle(10.0)], [NewLine(1.0)], [Label(20.0, 12.0, a.title), Label(20.0, 12.0, b.title)]);
      Out(Over(s, [a, b], [Ends(a.id, b.id)], 0, 10.0), 0, 10.0).lines[0].strokeWidth == 1.0
      && s.lines[0].strokeWidth == 0.5
  {
  }

  /** Mouse-out as evidently intended: lines go back to the width they were created with. */
  function RestoringOut(s: Styles, h: nat, nodeRadius: real, k: real): (r: Styles)
    requires h < |s.labels|
    ensures |r.circles| == |s.circles| && |r.lines| == |s.lines| && |r.labels| == |s.labels|
  {
    Styles(OutCircles(s.circles, nodeRadius),
           seq(|s.lines| , i requires 0 <= i < |s.lines| =>
             s.lines[i].(stroke := LINK_DEFAULT, strokeWidth := NewLine(k).strokeWidth, opacity := 1.0)),
           s.labels[h := s.labels[h].(dy := nodeRadius + 10.0)])
  }

  /** With the corrected reset, leaving a node exactly undoes hovering it, for any graph. */
  lemma {:induction false} HoverRoundTripRestoring(s: Styles, nodes: seq<Node>, links: seq<Ends>, h: nat,
                                                  nodeRadius: real, k: real)
    requires Aligned(s, nodes, links, h) && CreatedStyles(s, nodeRadius, k)
    ensures RestoringOut(Over(s, nodes, links, h, nodeRadius), h, nodeRadius, k) == s
  {
    var r := RestoringOut(Over(s, nodes, links, h, nodeRadius), h, nodeRadius, k);
    assert r.circles == s.circles;
    assert r.lines == s.lines;
    assert r.labels == s.labels;
  }

  // ---- the handlers ----

  /**
   * `handleNodeMouseOver` on circle `h`. The three flags say whether the node,
   * link and label selections exist yet; without all three nothing happens.
   */
  method HandleNodeMouseOver(circles: array<Circle>, lines: array<Line>, labels: array<Label>,
                             nodes: seq<Node>, links: seq<Ends>, h: nat, nodeRadius: real,
                             haveNodes: bool, haveLinks: bool, haveLabels: bool)
    requires Aligned(Styles(circles[..], lines[..], labels[..]), nodes, links, h)
    modifies circles, lines, labels
    ensures var before := Styles(old(circles[..]), old(lines[..]), old(labels[..]));
      Styles(circles[..], lines[..], labels[..])
        == if haveNodes && haveLinks && haveLabels then Over(before, nodes, links, h, nodeRadius) else before
  {
    if !haveNodes || !haveLinks || !haveLabels {
      return;
    }
    DimAll(circles, lines);
    var hoveredId := nodes[h].id;
    HighlightNeighbourhood(circles, nodes, links, hoveredId);
    HighlightIncidentLinks(lines, links, hoveredId);
    circles[h] := circles[h].(fill := NODE_HIGHLIGHT, r := nodeRadius * 1.5, opacity := 1.0);
    labels[h] := labels[h].(dy := nodeRadius * 3.0 + 1.0);
    assert circles[..] == Over(Styles(old(circles[..]), old(lines[..]), old(labels[..])), nodes, links, h, nodeRadius).circles;
  }

  /** Dim every node and every link. */
  method DimAll(circles: array<Circle>, lines: array<Line>)
    modifies circles, lines
    ensures |circles[..]| == |old(circles[..])|
    ensures forall i :: 0 <= i < circles.Length ==> circles[i] == old(circles[i]).(fill := NODE_DIMMED, opacity := 0.4)
    ensures forall i :: 0 <= i < lines.Length ==> lines[i] == old(lines[i]).(stroke := LINK_DEFAULT, opacity := 0.2)
  {
    var i := 0;
    while i < circles.Length
      modifies circles
      invariant 0 <= i <= circles.Length
      invariant forall j :: 0 <= j < i ==> circles[j] == old(circles[j]).(fill := NODE_DIMMED, opacity := 0.4)
      invariant forall j :: i <= j < circles.Length ==> circles[j] == old(circles[j])
    {
      circles[i] := circles[i].(fill := NODE_DIMMED, opacity := 0.4);
      i := i + 1;
    }
    i := 0;
    while i < lines.Length
      modifies lines
      invariant 0 <= i <= lines.Length
      invariant forall j :: 0 <= j < i ==> lines[j] == old(lines[j]).(stroke := LINK_DEFAULT, opacity := 0.2)
      invariant forall j :: i <= j < lines.Length ==> lines[j] == old(lines[j])
    {
      lines[i] := lines[i].(stroke := LINK_DEFAULT, opacity := 0.2);
      i := i + 1;
    }
  }

  /** Restore the default fill and full opacity of every node in the hovered node's neighbourhood. */
  method HighlightNeighbourhood(circles: array<Circle>, nodes: seq<Node>, links: seq<Ends>, hoveredId: string)
    requires circles.Length == |nodes|
    modifies circles
    ensures forall i :: 0 <= i < circles.Length ==>
      circles[i] == if InNeighbourhood(hoveredId, nodes[i].id, links)
                    then old(circles[i]).(fill := NODE_DEFAULT, opacity := 1.0) else old(circles[i])
  {
    var i := 0;
    while i < circles.Length
      invariant 0 <= i <= circles.Length
      invariant forall j :: 0 <= j < i ==>
        circles[j] == if InNeighbourhood(hoveredId, nodes[j].id, links)
                      then old(circles[j]).(fill := NODE_DEFAULT, opacity := 1.0) else old(circles[j])
      invariant forall j :: i <= j < circles.Length ==> circles[j] == old(circles[j])
    {
      if InNeighbourhood(hoveredId, nodes[i].id, links) {
        circles[i] := circles[i].(fill := NODE_DEFAULT, opacity := 1.0);
      }
      i := i + 1;
    }
  }

  /** Highlight every link incident to the hovered node. */
  method HighlightIncidentLinks(lines: array<Line>, links: seq<Ends>, hoveredId: string)
    requires lines.Length == |links|
    modifies lines
    ensures forall i :: 0 <= i < lines.Length ==>
      lines[i] == if IsIncident(links[i], hoveredId)
                  then old(lines[i]).(stroke := LINK_HIGHLIGHT, strokeWidth := 2.0, opacity := 1.0) else old(lines[i])
  {
    var i := 0;
    while i < lines.Length
      invariant 0 <= i <= lines.Length
      invariant forall j :: 0 <= j < i ==>
        lines[j] == if IsIncident(links[j], hoveredId)
                    then old(lines[j]).(stroke := LINK_HIGHLIGHT, strokeWidth := 2.0, opacity := 1.0) else old(lines[j])
      invariant forall j :: i <= j < lines.Length ==> lines[j] == old(lines[j])
    {
      if IsIncident(links[i], hoveredId) {
        lines[i] := lines[i].(stroke := LINK_HIGHLIGHT, strokeWidth := 2.0, opacity := 1.0);
      }
      i := i + 1;
    }
  }

  /** `handleNodeMouseOut` on circle `h`: reset every node and link, and `h`'s label offset. */
  method HandleNodeMouseOut(circles: array<Circle>, lines: array<Line>, labels: array<Label>, h: nat, nodeRadius: real)
    requires h < labels.Length
    modifies circles, lines, labels
    ensures Styles(circles[..], lines[..], labels[..])
         == Out(Styles(old(circles[..]), old(lines[..]), old(labels[..])), h, nodeRadius)
  {
    var i := 0;
    while i < circles.Length
      modifies circles
      invariant 0 <= i <= circles.Length
      invariant forall j :: 0 <= j < i ==> circles[j] == old(circles[j]).(fill := NODE_DEFAULT, opacity := 1.0, r := nodeRadius)
      invariant forall j :: i <= j < circles.Length ==> circles[j] == old(circles[j])
    {
      circles[i] := circles[i].(fill := NODE_DEFAULT, opacity := 1.0, r := nodeRadius);
      i := i + 1;
    }
    i := 0;
    while i < lines.Length
      modifies lines
      invariant 0 <= i <= lines.Length
      invariant forall j :: 0 <= j < i ==> lines[j] == old(lines[j]).(stroke := LINK_DEFAULT, strokeWidth := 1.0, opacity := 1.0)
      invariant forall j :: i <= j < lines.Length ==> lines[j] == old(lines[j])
    {
      lines[i] := lines[i].(stroke := LINK_DEFAULT, strokeWidth := 1.0, opacity := 1.0);
      i := i + 1;
    }
    labels[h] := labels[h].(dy := nodeRadius + 10.0);
    assert circles[..] == OutCircles(old(circles[..]), nodeRadius);
    assert lines[..] == OutLines(old(lines[..]));
  }
}
