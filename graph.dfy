/**
 * Graph data as the simulation holds it. Nodes live in one arena (a sequence or
 * array); a resolved link refers to its endpoints by their position in the arena,
 * so a node moved in place is seen through every link that refers to it.
 */
module Graph {
  import opened Wrappers

  /** `fx`/`fy` are the pin; `None` is JavaScript's `null`. */
  datatype Node = Node(id: string, title: string, x: real, y: real, vx: real, vy: real, fx: Option<real>, fy: Option<real>)

  datatype Link = Link(source: nat, target: nat)

  /** Every link's endpoints are nodes of the arena. */
  predicate Resolved(nodeCount: nat, links: seq<Link>)
  {
    forall i :: 0 <= i < |links| ==> links[i].source < nodeCount && links[i].target < nodeCount
  }

  /** What code reading `link.source.id` and `link.target.id` sees of a resolved link. */
  datatype Ends = Ends(sourceId: string, targetId: string)

  function EndsOf(nodes: seq<Node>, links: seq<Link>): (r: seq<Ends>)
    requires Resolved(|nodes|, links)
    ensures |r| == |links|
    ensures forall i :: 0 <= i < |r| ==> r[i] == Ends(nodes[links[i].source].id, nodes[links[i].target].id)
  {
    seq(|links|, i requires 0 <= i < |links| => Ends(nodes[links[i].source].id, nodes[links[i].target].id))
  }
}
