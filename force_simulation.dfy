/**
 * The force-simulation hook: the simulation is created once per graph with the
 * configured forces, and later runs re-parameterise the same simulation in place.
 * Only the configuration and the timer state are modelled; the physics is not.
 */
module ForceSimulation {
  import opened Wrappers
  import opened Numeric
  import opened Graph
  import opened ZoomDependentValues

  datatype LinkForce = LinkForce(links: seq<Link>, distance: real, strength: real)
  datatype ManyBodyForce = ManyBodyForce(strength: real, distanceMin: real, distanceMax: real, theta: real)
  datatype CenterForce = CenterForce(x: real, y: real, strength: real)
  datatype AxisForce = AxisForce(target: real, strength: real)

  /** The collision force's radius accessor is `d => CollisionRadius(d, minRadius)`; `minRadius` is what its closure captured. */
  datatype CollideForce = CollideForce(minRadius: real)

  datatype ForceConfig = ForceConfig(
    link: LinkForce, charge: ManyBodyForce, center: CenterForce, forceX: AxisForce, forceY: AxisForce,
    collide: CollideForce, velocityDecay: real, alphaMin: real, alphaDecay: real)

  /**
   * JavaScript's `length` of a string: its number of UTF-16 code units. A character
   * outside the Basic Multilingual Plane takes two (a surrogate pair).
   */
  function Utf16Length(s: string): (n: nat)
    ensures |s| <= n <= 2 * |s|
    decreases |s|
  {
    if s == [] then 0 else (if s[0] as int >= 0x1_0000 then 2 else 1) + Utf16Length(s[1..])
  }

  /** A title written in the Basic Multilingual Plane has one code unit per character. */
  lemma {:induction false} Utf16LengthBmp(s: string)
    requires forall k :: 0 <= k < |s| ==> s[k] as int < 0x1_0000
    ensures Utf16Length(s) == |s|
    decreases |s|
  {
    if s != [] {
      Utf16LengthBmp(s[1..]);
    }
  }

  /** An emoji is one character but two code units. */
  lemma Utf16LengthAstral()
    ensures |"\U{1F600}"| == 1 && Utf16Length("\U{1F600}") == 2
  {
  }

  /** Estimated label width: five pixels per UTF-16 code unit of the title, none without a title. */
  function LabelWidth(title: string): (w: real)
    ensures w == 0.0 <==> title == ""
    ensures (|title| as real) * 5.0 <= w <= (|title| as real) * 10.0
  {
    if title == "" then 0.0 else (Utf16Length(title) as real) * 5.0
  }

  /** A node's collision radius: wide enough for its label, and never below the zoom-dependent radius. */
  function CollisionRadius(node: Node, minRadius: real): (r: real)
    ensures r >= minRadius && r >= (Utf16Length(node.title) as real) * 5.0
    ensures r == minRadius || r == (Utf16Length(node.title) as real) * 5.0
  {
    Max(LabelWidth(node.title), minRadius)
  }

  lemma CollisionRadiusAtLeastFloor(node: Node, k: real)
    ensures CollisionRadius(node, ZoomDependentValues.ZoomDependentValues(k).collisionRadius) >= 40.0
  {
  }

  /** The configuration the first run builds. */
  function InitialConfig(links: seq<Link>, width: real, height: real, zv: ZoomValues): (c: ForceConfig)
    ensures c.link.links == links && c.collide.minRadius == zv.collisionRadius
    ensures Reparameterise(c, links, width, height, zv) == c
  {
    ForceConfig(
      LinkForce(links, zv.linkDistance, 0.5),
      ManyBodyForce(zv.chargeStrength, 10.0, 200.0, 0.9),
      CenterForce(width / 2.0, height / 2.0, 0.1),
      AxisForce(width / 2.0, 0.05),
      AxisForce(height / 2.0, 0.05),
      CollideForce(zv.collisionRadius),
      0.4, 0.001, 0.02)
  }

  /** What a later run writes into the existing forces; every other parameter stays as it was. */
  function Reparameterise(c: ForceConfig, links: seq<Link>, width: real, height: real, zv: ZoomValues): (r: ForceConfig)
    ensures SameStaticParameters(c, r)
    ensures r.link.links == links && r.center.x == r.forceX.target && r.center.y == r.forceY.target
  {
    c.(link := c.link.(links := links, distance := zv.linkDistance),
       charge := c.charge.(strength := zv.chargeStrength),
       center := c.center.(x := width / 2.0, y := height / 2.0),
       forceX := c.forceX.(target := width / 2.0),
       forceY := c.forceY.(target := height / 2.0),
       collide := CollideForce(zv.collisionRadius))
  }

  /** The parameters no later run touches. */
  predicate SameStaticParameters(a: ForceConfig, b: ForceConfig)
  {
    && a.link.strength == b.link.strength
    && a.charge.distanceMin == b.charge.distanceMin && a.charge.distanceMax == b.charge.distanceMax
    && a.charge.theta == b.charge.theta
    && a.center.strength == b.center.strength && a.forceX.strength == b.forceX.strength
    && a.forceY.strength == b.forceY.strength
    && a.velocityDecay == b.velocityDecay && a.alphaMin == b.alphaMin && a.alphaDecay == b.alphaDecay
  }

  lemma InitialConfiguration(links: seq<Link>, width: real, height: real, zv: ZoomValues)
    ensures var c := InitialConfig(links, width, height, zv);
      && c.link == LinkForce(links, zv.linkDistance, 0.5)
      && c.charge == ManyBodyForce(zv.chargeStrength, 10.0, 200.0, 0.9)
      && c.center == CenterForce(width / 2.0, height / 2.0, 0.1)
      && c.forceX == AxisForce(width / 2.0, 0.05) && c.forceY == AxisForce(height / 2.0, 0.05)
      && c.collide.minRadius == zv.collisionRadius
      && c.velocityDecay == 0.4 && c.alphaMin == 0.001 && c.alphaDecay == 0.02
  {
  }

  /** A later run updates the links, distance, charge, centres and collision radius, and nothing else. */
  lemma ReparameteriseEffect(c: ForceConfig, links: seq<Link>, width: real, height: real, zv: ZoomValues)
    ensures var r := Reparameterise(c, links, width, height, zv);
      && r.link.links == links && r.link.distance == zv.linkDistance && r.charge.strength == zv.chargeStrength
      && r.center.x == width / 2.0 && r.center.y == height / 2.0
      && r.forceX.target == width / 2.0 && r.forceY.target == height / 2.0
      && r.collide.minRadius == zv.collisionRadius
      && SameStaticParameters(r, c)
  {
  }

  /** Re-parameterising a created configuration gives exactly what creating it afresh with the new values would. */
  lemma ReparameteriseIsRecreate(links0: seq<Link>, width0: real, height0: real, zv0: ZoomValues,
                                 links: seq<Link>, width: real, height: real, zv: ZoomValues)
    ensures Reparameterise(InitialConfig(links0, width0, height0, zv0), links, width, height, zv)
         == InitialConfig(links, width, height, zv)
  {
  }

  /** One later run of the hook: its data links, canvas size and zoom values. */
  datatype Run = Run(links: seq<Link>, width: real, height: real, zv: ZoomValues)

  function ApplyRuns(c: ForceConfig, runs: seq<Run>): ForceConfig
    decreases |runs|
  {
    if runs == [] then c
    else ApplyRuns(Reparameterise(c, runs[0].links, runs[0].width, runs[0].height, runs[0].zv), runs[1..])
  }

  /**
   * After any number of later runs the configuration is the one a fresh simulation
   * would get from the latest run's values: nothing accumulates across runs.
   */
  lemma {:induction false} ApplyRunsIsLatestCreate(first: Run, runs: seq<Run>)
    requires runs != []
    ensures var last := runs[|runs| - 1];
      ApplyRuns(InitialConfig(first.links, first.width, first.height, first.zv), runs)
        == InitialConfig(last.links, last.width, last.height, last.zv)
    decreases |runs|
  {
    var r0 := runs[0];
    ReparameteriseIsRecreate(first.links, first.width, first.height, first.zv, r0.links, r0.width, r0.height, r0.zv);
    if |runs| > 1 {
      ApplyRunsIsLatestCreate(r0, runs[1..]);
    }
  }

  /** A simulation: its node arena, its forces and its cooling/timer state. */
  class Simulation {
    var nodes: array<Node>
    var config: ForceConfig
    var alpha: real
    var alphaTarget: real
    var running: bool

    /** `d3.forceSimulation(nodes)` followed by the hook's configuration chain; its timer starts at once. */
    constructor Create(nodes: array<Node>, links: seq<Link>, width: real, height: real, zv: ZoomValues)
      ensures this.nodes == nodes && config == InitialConfig(links, width, height, zv)
      ensures alpha == 1.0 && alphaTarget == 0.0 && running
    {
      this.nodes := nodes;
      config := InitialConfig(links, width, height, zv);
      alpha := 1.0;
      alphaTarget := 0.0;
      running := true;
    }

    method SetAlpha(a: real)
      modifies this
      ensures alpha == a
      ensures nodes == old(nodes) && config == old(config) && alphaTarget == old(alphaTarget) && running == old(running)
    {
      alpha := a;
    }

    method SetAlphaTarget(t: real)
      modifies this
      ensures alphaTarget == t
      ensures nodes == old(nodes) && config == old(config) && alpha == old(alpha) && running == old(running)
    {
      alphaTarget := t;
    }

    /** Starts the timer again (a running one stays running). */
    method Restart()
      modifies this
      ensures running
      ensures nodes == old(nodes) && config == old(config) && alpha == old(alpha) && alphaTarget == old(alphaTarget)
    {
      running := true;
    }

    /** Halts ticking; stopping a stopped simulation changes nothing. */
    method Stop()
      modifies this
      ensures !running
      ensures nodes == old(nodes) && config == old(config) && alpha == old(alpha) && alphaTarget == old(alphaTarget)
    {
      running := false;
    }

    /** The force setters of a later run. */
    method Reconfigure(links: seq<Link>, width: real, height: real, zv: ZoomValues)
      modifies this
      ensures config == Reparameterise(old(config), links, width, height, zv)
      ensures nodes == old(nodes) && alpha == old(alpha) && alphaTarget == old(alphaTarget) && running == old(running)
    {
      config := config.(link := config.link.(links := links));
      config := config.(link := config.link.(distance := zv.linkDistance));
      config := config.(charge := config.charge.(strength := zv.chargeStrength));
      config := config.(center := config.center.(x := width / 2.0, y := height / 2.0));
      config := config.(forceX := config.forceX.(target := width / 2.0));
      config := config.(forceY := config.forceY.(target := height / 2.0));
      config := config.(collide := CollideForce(zv.collisionRadius));
    }
  }

  /** The graph data the hook receives. */
  datatype GraphInput = GraphInput(nodes: array<Node>, links: seq<Link>)

  /** The hook's state: the simulation reference, empty until the first run with data. */
  class ForceSimulationHook {
    var simulationRef: Simulation?

    constructor ()
      ensures simulationRef == null
    {
      simulationRef := null;
    }

    /** One run of the effect: nothing without data, create on the first run, update in place afterwards. */
    method Effect(data: Option<GraphInput>, width: real, height: real, zv: ZoomValues)
      modifies this, simulationRef
      ensures data.None? ==> simulationRef == old(simulationRef)
      ensures data.None? && simulationRef != null ==> unchanged(simulationRef)
      ensures data.Some? && old(simulationRef) == null ==>
        && simulationRef != null && fresh(simulationRef)
        && simulationRef.nodes == data.value.nodes
        && simulationRef.config == InitialConfig(data.value.links, width, height, zv)
        && simulationRef.alpha == 1.0 && simulationRef.alphaTarget == 0.0 && simulationRef.running
      ensures data.Some? && old(simulationRef) != null ==>
        && simulationRef == old(simulationRef)
        && simulationRef.nodes == old(simulationRef.nodes)
        && simulationRef.config == Reparameterise(old(simulationRef.config), data.value.links, width, height, zv)
        && simulationRef.alpha == 0.3 && simulationRef.alphaTarget == old(simulationRef.alphaTarget)
        && simulationRef.running
    {
      if data.None? {
        return;
      }
      if simulationRef == null {
        simulationRef := new Simulation.Create(data.value.nodes, data.value.links, width, height, zv);
      } else {
        simulationRef.Reconfigure(data.value.links, width, height, zv);
        simulationRef.SetAlpha(0.3);
        simulationRef.Restart();
      }
    }

    /** The effect's cleanup: stop the simulation if there is one. */
    method Cleanup()
      modifies simulationRef
      ensures simulationRef != null ==>
        && !simulationRef.running
        && simulationRef.nodes == old(simulationRef.nodes) && simulationRef.config == old(simulationRef.config)
        && simulationRef.alpha == old(simulationRef.alpha) && simulationRef.alphaTarget == old(simulationRef.alphaTarget)
    {
      if simulationRef != null {
        simulationRef.Stop();
      }
    }
  }
}
