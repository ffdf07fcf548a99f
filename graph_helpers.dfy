/** Position bounding and neighbour resolution over link data. */
module GraphHelpers {
  import opened Numeric
  import opened Graph

  /** `Math.max(min, Math.min(max, value))`; with an empty interval the lower bound wins. */
  function CalculateBoundedPosition(value: real, min: real, max: real): (r: real)
    ensures min <= max ==> min <= r <= max
    ensures min <= value <= max ==> r == value
    ensures value < min ==> r == min
    ensures min <= max < value ==> r == max
    ensures max < min ==> r == min
  {
    Max(min, Min(max, value))
  }

  lemma BoundedPositionIdempotent(value: real, min: real, max: real)
    ensures CalculateBoundedPosition(CalculateBoundedPosition(value, min, max), min, max)
         == CalculateBoundedPosition(value, min, max)
  {
  }

  lemma BoundedPositionTestedValues()
    ensures CalculateBoundedPosition(5.0, 0.0, 10.0) == 5.0
    ensures CalculateBoundedPosition(-5.0, 0.0, 10.0) == 0.0
    ensures CalculateBoundedPosition(15.0, 0.0, 10.0) == 10.0
  {
  }

  /** Bounds a coordinate to `[padding, width - padding]`. */
  function CalculateNodePosition(value: real, width: real, padding: real): (r: real)
    ensures padding <= width - padding ==> padding <= r <= width - padding
    ensures padding <= value <= width - padding ==> r == value
    ensures value < padding ==> r == padding
    ensures padding <= width - padding < value ==> r == width - padding
  {
    CalculateBoundedPosition(value, padding, width - padding)
  }

  lemma NodePositionTestedValues()
    ensures CalculateNodePosition(50.0, 100.0, 10.0) == 50.0
    ensures CalculateNodePosition(0.0, 100.0, 10.0) == 10.0
    ensures CalculateNodePosition(100.0, 100.0, 10.0) == 90.0
  {
  }

  predicate IsIncident(e: Ends, nodeId: string)
  {
    e.sourceId == nodeId || e.targetId == nodeId
  }

  /** The links with `nodeId` at either end, in their original order. */
  function FindConnectedLinks(nodeId: string, links: seq<Ends>): (r: seq<Ends>)
    ensures |r| <= |links|
    ensures forall e :: e in r <==> e in links && IsIncident(e, nodeId)
  {
    if links == [] then []
    else (if IsIncident(links[0], nodeId) then [links[0]] else []) + FindConnectedLinks(nodeId, links[1..])
  }

  /** Filtering distributes over concatenation: the kept links stay in their original order. */
  lemma {:induction false} FindConnectedLinksAppend(nodeId: string, a: seq<Ends>, b: seq<Ends>)
    ensures FindConnectedLinks(nodeId, a + b) == FindConnectedLinks(nodeId, a) + FindConnectedLinks(nodeId, b)
  {
    if a == [] {
      assert a + b == b;
    } else {
      assert (a + b)[0] == a[0];
      assert (a + b)[1..] == a[1..] + b;
      FindConnectedLinksAppend(nodeId, a[1..], b);
    }
  }

  /** Link `e` joins `a` and `b`, in either direction. */
  predicate Joins(e: Ends, a: string, b: string)
  {
    (e.sourceId == a && e.targetId == b) || (e.targetId == a && e.sourceId == b)
  }

  /** The `.some(...)` test: some link joins `nodeId` and `otherId`. */
  predicate IsConnected(nodeId: string, otherId: string, links: seq<Ends>)
  {
    exists i :: 0 <= i < |links| && Joins(links[i], nodeId, otherId)
  }

  /** A node is kept when a link joins it to `nodeId` or when it is `nodeId`'s own node. */
  predicate InNeighbourhood(nodeId: string, otherId: string, links: seq<Ends>)
  {
    IsConnected(nodeId, otherId, links) || otherId == nodeId
  }

  /** The nodes one hop from `nodeId`, and its own node, in their original order. */
  function FindConnectedNodes(nodeId: string, nodes: seq<Node>, links: seq<Ends>): (r: seq<Node>)
    ensures |r| <= |nodes|
    ensures forall n :: n in r <==> n in nodes && InNeighbourhood(nodeId, n.id, links)
  {
    if nodes == [] then []
    else (if InNeighbourhood(nodeId, nodes[0].id, links) then [nodes[0]] else [])
         + FindConnectedNodes(nodeId, nodes[1..], links)
  }

  lemma {:induction false} FindConnectedNodesAppend(nodeId: string, a: seq<Node>, b: seq<Node>, links: seq<Ends>)
    ensures FindConnectedNodes(nodeId, a + b, links) == FindConnectedNodes(nodeId, a, links) + FindConnectedNodes(nodeId, b, links)
  {
    if a == [] {
      assert a + b == b;
    } else {
      assert (a + b)[0] == a[0];
      assert (a + b)[1..] == a[1..] + b;
      FindConnectedNodesAppend(nodeId, a[1..], b, links);
    }
  }

  /** Membership is symmetric: `b` is in `a`'s neighbourhood exactly when `a` is in `b`'s. */
  lemma NeighbourhoodSymmetric(a: string, b: string, links: seq<Ends>)
    ensures InNeighbourhood(a, b, links) <==> InNeighbourhood(b, a, links)
  {
    if IsConnected(a, b, links) {
      var i :| 0 <= i < |links| && Joins(links[i], a, b);
      assert Joins(links[i], b, a);
    }
    if IsConnected(b, a, links) {
      var i :| 0 <= i < |links| && Joins(links[i], b, a);
      assert Joins(links[i], a, b);
    }
  }

  /** Neighbourhoods are one hop only: on the chain 1-2-3, node 3 is a neighbour of 2 and 2 of 1, but 3 is not one of 1. */
  lemma NeighbourhoodNotTransitive()
    ensures var links := [Ends("1", "2"), Ends("2", "3")];
      InNeighbourhood("1", "2", links) && InNeighbourhood("2", "3", links) && !InNeighbourhood("1", "3", links)
  {
    var links := [Ends("1", "2"), Ends("2", "3")];
    assert Joins(links[0], "1", "2");
    assert Joins(links[1], "2", "3");
    assert !Joins(links[0], "1", "3") && !Joins(links[1], "1", "3");
  }

  /** On a star with centre c and leaves a, b, d, the centre's neighbourhood is every node. */
  lemma StarCentreNeighbourhood(c: Node, a: Node, b: Node, d: Node)
    requires c.id == "c" && a.id == "a" && b.id == "b" && d.id == "d"
    ensures FindConnectedNodes("c", [c, a, b, d], StarLinks()) == [c, a, b, d]
  {
    var links := StarLinks();
    assert Joins(links[2], "c", "d");
    assert [d][1..] == [];
    assert FindConnectedNodes("c", [d], links) == [d];
    assert Joins(links[1], "c", "b");
    assert [b, d][1..] == [d];
    assert FindConnectedNodes("c", [b, d], links) == [b, d];
    assert Joins(links[0], "c", "a");
    assert [a, b, d][1..] == [b, d];
    assert FindConnectedNodes("c", [a, b, d], links) == [a, b, d];
    assert [c, a, b, d][1..] == [a, b, d];
  }

  /** On the same star, a leaf's neighbourhood is only itself and the centre: one hop. */
  lemma StarLeafNeighbourhood(c: Node, a: Node, b: Node, d: Node)
    requires c.id == "c" && a.id == "a" && b.id == "b" && d.id == "d"
    ensures FindConnectedNodes("a", [c, a, b, d], StarLinks()) == [c, a]
  {
    var links := StarLinks();
    assert Joins(links[0], "a", "c");
    assert !InNeighbourhood("a", "b", links) by {
      assert !Joins(links[0], "a", "b") && !Joins(links[1], "a", "b") && !Joins(links[2], "a", "b");
    }
    assert !InNeighbourhood("a", "d", links) by {
      assert !Joins(links[0], "a", "d") && !Joins(links[1], "a", "d") && !Joins(links[2], "a", "d");
    }
    assert [d][1..] == [];
    assert FindConnectedNodes("a", [d], links) == [];
    assert [b, d][1..] == [d];
    assert FindConnectedNodes("a", [b, d], links) == [];
    assert [a, b, d][1..] == [b, d];
    assert FindConnectedNodes("a", [a, b, d], links) == [a];
    assert [c, a, b, d][1..] == [a, b, d];
  }

  function StarLinks(): seq<Ends>
  {
    [Ends("c", "a"), Ends("c", "b"), Ends("c", "d")]
  }
}
