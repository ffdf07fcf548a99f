/**
 * Dragging a node: the gesture filter, and the start / move / end handlers that
 * pin and release the node and warm or cool the simulation.
 */
module DragBehavior {
  import opened Wrappers
  import opened Graph
  import opened ForceSimulation

  /** The fields of a pointer event the filter reads; an absent `button` is `None`, an absent flag `false`. */
  datatype PointerEvent = PointerEvent(button: Option<int>, ctrlKey: bool, defaultPrevented: bool)

  /** JavaScript truthiness of the `button` field. */
  predicate Truthy(button: Option<int>)
  {
    button.Some? && button.value != 0
  }

  /** `!event.button && !event.ctrlKey && !event.defaultPrevented`. */
  function DragFilter(event: PointerEvent): (admit: bool)
    ensures admit <==> (event.button == None || event.button == Some(0)) && !event.ctrlKey && !event.defaultPrevented
  {
    !Truthy(event.button) && !event.ctrlKey && !event.defaultPrevented
  }

  lemma DragFilterTestedCases()
    ensures DragFilter(PointerEvent(Some(0), false, false))
    ensures !DragFilter(PointerEvent(Some(1), false, false))
    ensures !DragFilter(PointerEvent(Some(0), true, false))
    ensures !DragFilter(PointerEvent(Some(0), false, true))
  {
  }

  // ---- the node pin ----

  function StartPin(n: Node): (r: Node)
    ensures r.fx == Some(r.x) && r.fy == Some(r.y)
    ensures r.(fx := n.fx, fy := n.fy) == n
  {
    n.(fx := Some(n.x), fy := Some(n.y))
  }

  datatype Point = Point(x: real, y: real)

  function MovePin(n: Node, p: Point): (r: Node)
    ensures r.fx == Some(p.x) && r.fy == Some(p.y)
    ensures r.(fx := n.fx, fy := n.fy) == n
  {
    n.(fx := Some(p.x), fy := Some(p.y))
  }

  function ReleasePin(n: Node): (r: Node)
    ensures r.fx.None? && r.fy.None?
    ensures r.(fx := n.fx, fy := n.fy) == n
  {
    n.(fx := None, fy := None)
  }

  /** A run of pointer moves, applied in order. */
  function MovePins(n: Node, moves: seq<Point>): Node
    decreases |moves|
  {
    if moves == [] then n else MovePins(MovePin(n, moves[0]), moves[1..])
  }

  /** The alpha target after a start or an end: only the first gesture to start, or the last to end, sets it. */
  function AlphaTargetOnStart(active: nat, alphaTarget: real): real
  {
    if active == 0 then 0.3 else alphaTarget
  }

  function AlphaTargetOnEnd(active: nat, alphaTarget: real): real
  {
    if active == 0 then 0.0 else alphaTarget
  }

  /** No handler moves the node: only the pin changes. */
  lemma HandlersOnlyTouchPin(n: Node, p: Point)
    ensures StartPin(n).(fx := n.fx, fy := n.fy) == n
    ensures MovePin(n, p).(fx := n.fx, fy := n.fy) == n
    ensures ReleasePin(n).(fx := n.fx, fy := n.fy) == n
    ensures StartPin(n).fx == Some(n.x) && StartPin(n).fy == Some(n.y)
  {
  }

  /** After a run of moves the node is pinned at the last pointer position, or where it was without moves. */
  lemma {:induction false} MovesPinAtLastPointer(n: Node, moves: seq<Point>)
    ensures moves == [] ==> MovePins(n, moves) == n
    ensures moves != [] ==> MovePins(n, moves) == MovePin(n, moves[|moves| - 1])
    decreases |moves|
  {
    if moves != [] {
      MovesPinAtLastPointer(MovePin(n, moves[0]), moves[1..]);
      if |moves| > 1 {
        assert moves[1..][|moves[1..]| - 1] == moves[|moves| - 1];
      }
    }
  }

  /**
   * A whole single drag: start, then any number of moves, then end, leaves the
   * node unpinned and otherwise as it was.
   */
  lemma {:induction false} SingleDragReleases(n: Node, moves: seq<Point>)
    ensures ReleasePin(MovePins(StartPin(n), moves)) == n.(fx := None, fy := None)
  {
    MovesPinAtLastPointer(StartPin(n), moves);
  }

  // ---- the handlers ----

  /** `start`: warm the simulation when no other drag is active, then pin the node where it is. */
  method DragStart(sim: Simulation, nodes: array<Node>, i: nat, active: nat)
    requires i < nodes.Length
    modifies sim, nodes
    ensures nodes[..] == old(nodes[..])[i := StartPin(old(nodes[i]))]
    ensures sim.alphaTarget == AlphaTargetOnStart(active, old(sim.alphaTarget))
    ensures sim.running == (active == 0 || old(sim.running))
    ensures sim.nodes == old(sim.nodes) && sim.config == old(sim.config) && sim.alpha == old(sim.alpha)
  {
    if active == 0 {
      sim.SetAlphaTarget(0.3);
      sim.Restart();
    }
    nodes[i] := nodes[i].(fx := Some(nodes[i].x));
    nodes[i] := nodes[i].(fy := Some(nodes[i].y));
  }

  /** `drag`: pin the node at the pointer. */
  method Drag(nodes: array<Node>, i: nat, pointer: Point)
    requires i < nodes.Length
    modifies nodes
    ensures nodes[..] == old(nodes[..])[i := MovePin(old(nodes[i]), pointer)]
  {
    nodes[i] := nodes[i].(fx := Some(pointer.x));
    nodes[i] := nodes[i].(fy := Some(pointer.y));
  }

  /** `end`: let the simulation cool when no other drag is active, and release the pin. */
  method DragEnd(sim: Simulation, nodes: array<Node>, i: nat, active: nat)
    requires i < nodes.Length
    modifies sim, nodes
    ensures nodes[..] == old(nodes[..])[i := ReleasePin(old(nodes[i]))]
    ensures sim.alphaTarget == AlphaTargetOnEnd(active, old(sim.alphaTarget))
    ensures sim.nodes == old(sim.nodes) && sim.config == old(sim.config) && sim.alpha == old(sim.alpha)
    ensures sim.running == old(sim.running)
  {
    if active == 0 {
      sim.SetAlphaTarget(0.0);
    }
    nodes[i] := nodes[i].(fx := None);
    nodes[i] := nodes[i].(fy := None);
  }
}
