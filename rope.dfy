/** `RopeSystem`: a chain of spring-jointed rigid bodies that the player
    deploys at their current position and retracts again. The node list,
    the spring joints, the player's joint, the container and the line
    renderer are fields of a class; the physics that moves the nodes between
    calls is not modelled, so positions change only where the script sets
    them. `transform.position` of the player is a parameter. */
module Rope {
  import opened UnityMath
  import opened Wrappers

  /** The serialized fields of `RopeSystem` that the logic reads. */
  datatype RopeConfig = RopeConfig(
    nodeCount: nat,
    nodeSpacing: real,
    nodeMass: real,
    nodeDamping: real,
    springStrength: real,
    springDamper: real,
    colliderRadius: real,
    ropeLayer: int,
    playerAnchorOffset: Vec3,
    playerSpringStrength: real,
    playerSpringDamper: real,
    playerMassScale: real,
    connectedMassScale: real)

  /** The defaults declared in the script (an unset `LayerMask` is 0). */
  const DefaultConfig: RopeConfig :=
    RopeConfig(20, 0.5, 0.1, 1.0, 1000.0, 0.2, 0.2, 0, Vec3(0.0, 1.0, 0.0), 100.0, 0.2, 1.0, 1.0)

  /** One node: its rigid body and the layer and collider of its game object. */
  datatype Node = Node(
    position: Vec3,
    linearVelocity: Vec3,
    angularVelocity: Vec3,
    isKinematic: bool,
    layer: nat,
    mass: real,
    linearDamping: real,
    colliderRadius: real)

  /** A spring joint on a node, connected to the node with index `connected`. */
  datatype NodeJoint = NodeJoint(connected: nat, spring: real, damper: real,
                                 minDistance: real, maxDistance: real)

  /** The spring joint on the player; `connected` is `None` when there is no
      node to connect to (the joint then holds on to the world). */
  datatype PlayerJoint = PlayerJoint(connected: Option<nat>, anchor: Vec3, spring: real, damper: real,
                                     minDistance: real, maxDistance: real,
                                     massScale: real, connectedMassScale: real)

  // ---------------------------------------------------------------------
  // Layer masks

  function Pow2(n: nat): (p: nat)
    ensures p >= 1
  {
    if n == 0 then 1 else 2 * Pow2(n - 1)
  }

  /** The number of halvings that bring `m` down to at most 1. */
  function HighestBit(m: int): nat
    decreases if m < 0 then 0 else m
  {
    if m <= 1 then 0 else 1 + HighestBit(m / 2)
  }

  /** For a positive mask, `HighestBit` is the index of its highest set bit. */
  lemma {:induction false} HighestBitBounds(m: int)
    requires m >= 1
    ensures Pow2(HighestBit(m)) <= m < Pow2(HighestBit(m) + 1)
    decreases m
  {
    if m > 1 {
      HighestBitBounds(m / 2);
    }
  }

  /** `GetLayerFromMask`: the index of the highest set bit of the mask, and
      0 for masks that are 0, 1 or negative (bit 31 set). */
  method GetLayerFromMask(mask: int) returns (layerNumber: nat)
    ensures layerNumber == HighestBit(mask)
    ensures mask <= 1 ==> layerNumber == 0
    ensures mask >= 1 ==> Pow2(layerNumber) <= mask < Pow2(layerNumber + 1)
  {
    layerNumber := 0;
    var layer := mask;
    while layer > 1
      invariant layerNumber + HighestBit(layer) == HighestBit(mask)
      decreases layer
    {
      layer := layer / 2;
      layerNumber := layerNumber + 1;
    }
    if mask >= 1 {
      HighestBitBounds(mask);
    }
  }

  // ---------------------------------------------------------------------
  // What each creation step builds

  /** `CreateNode(index, position)`: a node at `position` on layer `layer`,
      at rest, kinematic exactly when it is the anchor node 0. */
  function NewNode(index: nat, position: Vec3, layer: nat, c: RopeConfig): (n: Node)
    ensures n.position == position && n.layer == layer
    ensures n.linearVelocity == Zero3 && n.angularVelocity == Zero3
    ensures n.isKinematic <==> index == 0
    ensures NodeShape(n, index, layer, c)
  {
    Node(position, Zero3, Zero3, index == 0, layer, c.nodeMass, c.nodeDamping, c.colliderRadius)
  }

  /** What a node keeps from its creation on: kinematic only as node 0 (and
      then at rest, since the script never sets a kinematic body's velocity),
      its layer, mass, damping and collider. */
  predicate NodeShape(n: Node, index: nat, layer: nat, c: RopeConfig) {
    && (n.isKinematic <==> index == 0)
    && (n.isKinematic ==> n.linearVelocity == Zero3 && n.angularVelocity == Zero3)
    && n.layer == layer && n.mass == c.nodeMass && n.linearDamping == c.nodeDamping
    && n.colliderRadius == c.colliderRadius
  }

  /** `ConfigureNodeSpringJoint`: a spring to node `connected` that may
      stretch from 0 up to `nodeSpacing`. */
  function NodeJointTo(connected: nat, c: RopeConfig): (j: NodeJoint)
    ensures j.connected == connected
    ensures j.minDistance == 0.0 && j.maxDistance == c.nodeSpacing
    ensures j.spring == c.springStrength && j.damper == c.springDamper
  {
    NodeJoint(connected, c.springStrength, c.springDamper, 0.0, c.nodeSpacing)
  }

  /** The joints of a chain of `n` nodes: every node but the anchor has one,
      to its predecessor. */
  predicate Chained(joints: map<nat, NodeJoint>, n: nat, c: RopeConfig) {
    && (forall i :: i in joints ==> 1 <= i < n)
    && (forall i: nat :: 1 <= i < n ==> i in joints && joints[i] == NodeJointTo(i - 1, c))
  }

  /** `GetLastNode` on a list of `count` nodes. */
  function LastNode(count: nat): (r: Option<nat>)
    ensures r == None <==> count == 0
    ensures r.Some? ==> r.value < count && r.value + 1 == count
  {
    if count > 0 then Some(count - 1) else None
  }

  /** `ConfigurePlayerSpringJoint` with `count` nodes: a rigid (zero-length)
      spring from the player's anchor offset to the last node. */
  function PlayerJointFor(count: nat, c: RopeConfig): (j: PlayerJoint)
    ensures j.connected == LastNode(count) && j.anchor == c.playerAnchorOffset
    ensures j.minDistance == 0.0 && j.maxDistance == 0.0
    ensures j.spring == c.playerSpringStrength && j.damper == c.playerSpringDamper
    ensures j.massScale == c.playerMassScale && j.connectedMassScale == c.connectedMassScale
  {
    PlayerJoint(LastNode(count), c.playerAnchorOffset, c.playerSpringStrength, c.playerSpringDamper,
                0.0, 0.0, c.playerMassScale, c.connectedMassScale)
  }

  // ---------------------------------------------------------------------
  // Reuse and rendering

  /** One iteration of `ReactivateRope`: move the node to the anchor and, if
      the physics engine drives it, bring it to rest. */
  function Reset(n: Node, anchor: Vec3): (r: Node)
    ensures r.position == anchor
    ensures !n.isKinematic ==> r.linearVelocity == Zero3 && r.angularVelocity == Zero3
    ensures r.(position := n.position, linearVelocity := n.linearVelocity,
               angularVelocity := n.angularVelocity) == n
    ensures n.isKinematic ==> r == n.(position := anchor)
  {
    if n.isKinematic then n.(position := anchor)
    else n.(position := anchor, linearVelocity := Zero3, angularVelocity := Zero3)
  }

  /** The nodes after `ReactivateRope(anchor)`. */
  function Reactivated(nodes: seq<Node>, anchor: Vec3): (r: seq<Node>)
    ensures |r| == |nodes|
    ensures forall i :: 0 <= i < |nodes| ==> r[i] == Reset(nodes[i], anchor)
  {
    seq(|nodes|, i requires 0 <= i < |nodes| => Reset(nodes[i], anchor))
  }

  /** Reactivation forgets where the rope was: reusing the nodes at a new
      anchor gives the same nodes whatever anchor they were reset to before. */
  lemma ReactivatedForgetsAnchor(nodes: seq<Node>, a: Vec3, b: Vec3)
    ensures Reactivated(Reactivated(nodes, a), b) == Reactivated(nodes, b)
  {
    var r1 := Reactivated(Reactivated(nodes, a), b);
    var r2 := Reactivated(nodes, b);
    forall i | 0 <= i < |nodes|
      ensures r1[i] == r2[i]
    {
      assert Reactivated(nodes, a)[i] == Reset(nodes[i], a);
    }
  }

  /** The nodes of a fresh rope at `anchor` are exactly the reactivated form
      of any earlier rope built with the same layer: reuse puts the rope in
      the state a first deploy would have built. */
  lemma ReactivatedIsFresh(nodes: seq<Node>, anchor: Vec3, layer: nat, c: RopeConfig)
    requires forall i :: 0 <= i < |nodes| ==> NodeShape(nodes[i], i, layer, c)
    ensures forall i :: 0 <= i < |nodes| ==> Reactivated(nodes, anchor)[i] == NewNode(i, anchor, layer, c)
  {
    forall i | 0 <= i < |nodes|
      ensures Reactivated(nodes, anchor)[i] == NewNode(i, anchor, layer, c)
    {
      var n := nodes[i];
      assert NodeShape(n, i, layer, c);
      if i == 0 {
        assert n.isKinematic && Reset(n, anchor) == n.(position := anchor);
      }
    }
  }

  /** `UpdateLineRenderer` while deployed: the node positions in order,
      then the player's anchor point. */
  function RenderSequence(nodes: seq<Node>, playerAnchor: Vec3): (r: seq<Vec3>)
    ensures |r| == |nodes| + 1
    ensures forall i :: 0 <= i < |nodes| ==> r[i] == nodes[i].position
    ensures r[|nodes|] == playerAnchor
    decreases |nodes|
  {
    if nodes == [] then [playerAnchor]
    else [nodes[0].position] + RenderSequence(nodes[1..], playerAnchor)
  }

  // ---------------------------------------------------------------------
  // The component

  class RopeSystem {
    const config: RopeConfig

    /** `IsDeployed`. */
    var isDeployed: bool
    /** `_nodesCreated`. */
    var nodesCreated: bool
    /** `_nodes`, in creation order. */
    var nodes: seq<Node>
    /** The node spring joints, keyed by the index of the node that carries them. */
    var nodeJoints: map<nat, NodeJoint>
    /** `_playerSpringJoint`. */
    var playerJoint: Option<PlayerJoint>
    /** `_ropeContainer` has been created, and whether it is active. */
    var containerExists: bool
    var containerActive: bool
    /** `_lineRenderer` has been created, whether it is enabled, and its positions. */
    var lineRendererExists: bool
    var lineEnabled: bool
    var linePositions: seq<Vec3>

    /** The layer every node is put on. */
    function NodeLayer(): nat {
      HighestBit(config.ropeLayer)
    }

    /** What holds between calls. The nodes exist once created, in number
        `nodeCount`, chained by their joints; the container is active and
        the player joint attached to the last node exactly while deployed. */
    predicate Valid()
      reads this
    {
      && (nodesCreated <==> containerExists) && (nodesCreated <==> lineRendererExists)
      && |nodes| == (if nodesCreated then config.nodeCount else 0)
      && (nodesCreated ==> |linePositions| == config.nodeCount + 1)
      && (forall i :: 0 <= i < |nodes| ==> NodeShape(nodes[i], i, NodeLayer(), config))
      && Chained(nodeJoints, |nodes|, config)
      && (isDeployed ==> nodesCreated)
      && containerActive == isDeployed
      && playerJoint == (if isDeployed then Some(PlayerJointFor(|nodes|, config)) else None)
    }

    /** `Awake`, on a component whose runtime fields are at their initial values. */
    constructor (config: RopeConfig)
      ensures this.config == config
      ensures Valid() && !isDeployed && !nodesCreated && nodes == []
    {
      this.config := config;
      isDeployed := false;
      nodesCreated := false;
      nodes := [];
      nodeJoints := map[];
      playerJoint := None;
      containerExists := false;
      containerActive := false;
      lineRendererExists := false;
      lineEnabled := false;
      linePositions := [];
    }

    /** `ToggleRope`, with the player at `playerPosition`. */
    method ToggleRope(playerPosition: Vec3)
      requires Valid()
      modifies this
      ensures Valid()
      ensures isDeployed == !old(isDeployed)
      ensures old(isDeployed) ==> Retracted(old(nodes), old(nodeJoints))
      ensures !old(isDeployed) ==> Deployed(Add(playerPosition, config.playerAnchorOffset))
      // only the first deploy touches the line renderer
      ensures old(isDeployed) || old(nodesCreated) ==>
        lineEnabled == old(lineEnabled) && linePositions == old(linePositions)
      // once built, the rope is never rebuilt: a later deploy reuses it
      ensures nodesCreated && (!old(nodesCreated) ==> lineEnabled)
    {
      if isDeployed {
        RetractRope();
      } else {
        DeployRope(playerPosition);
      }
    }

    /** The rope hangs from `anchor`: `nodeCount` nodes, all at `anchor` and
        at rest, chained by joints, with the player joint on the last one. */
    predicate Deployed(anchor: Vec3)
      reads this
    {
      && isDeployed && containerActive
      && |nodes| == config.nodeCount
      && (forall i :: 0 <= i < |nodes| ==> nodes[i] == NewNode(i, anchor, NodeLayer(), config))
      && Chained(nodeJoints, |nodes|, config)
      && playerJoint == Some(PlayerJointFor(|nodes|, config))
    }

    /** The rope is put away: no player joint, the container inactive, and
        the given nodes and joints kept for reuse. */
    predicate Retracted(keptNodes: seq<Node>, keptJoints: map<nat, NodeJoint>)
      reads this
    {
      !isDeployed && !containerActive && playerJoint == None
      && nodes == keptNodes && nodeJoints == keptJoints
    }

    /** `DeployRope`: build the rope on the first deploy, reuse it after. */
    method DeployRope(playerPosition: Vec3)
      requires Valid()
      modifies this
      ensures Valid()
      ensures old(isDeployed) ==> unchanged(this)
      ensures !old(isDeployed) ==> Deployed(Add(playerPosition, config.playerAnchorOffset)) && nodesCreated
      ensures !old(isDeployed) && old(nodesCreated) ==>
        nodes == Reactivated(old(nodes), Add(playerPosition, config.playerAnchorOffset))
        && nodeJoints == old(nodeJoints)
        && lineEnabled == old(lineEnabled) && linePositions == old(linePositions)
      ensures !old(isDeployed) && !old(nodesCreated) ==> lineEnabled
    {
      if isDeployed {
        return;
      }
      var anchorPosition := Add(playerPosition, config.playerAnchorOffset);
      if !nodesCreated {
        CreateRopeNodes(anchorPosition);
        nodesCreated := true;
      } else {
        ReactivateRope(anchorPosition);
        ReactivatedIsFresh(old(nodes), anchorPosition, NodeLayer(), config);
      }
      ConfigurePlayerSpringJoint();
      isDeployed := true;
    }

    /** `RetractRope`. */
    method RetractRope()
      requires Valid()
      modifies this`playerJoint, this`containerActive, this`isDeployed
      ensures Valid()
      ensures lineEnabled == old(lineEnabled) && linePositions == old(linePositions)
      ensures !old(isDeployed) ==> unchanged(this)
      ensures old(isDeployed) ==> Retracted(old(nodes), old(nodeJoints)) && nodesCreated
    {
      if !isDeployed {
        return;
      }
      if playerJoint.Some? {
        playerJoint := None;
      }
      containerActive := false;
      isDeployed := false;
    }

    /** `GetLastNode`, as an index into `nodes`. */
    method GetLastNode() returns (r: Option<nat>)
      ensures r == LastNode(|nodes|)
      ensures r.Some? ==> r.value < |nodes|
    {
      r := if |nodes| > 0 then Some(|nodes| - 1) else None;
    }

    /** `CreateRopeNodes`: create the container with its line renderer, then
        `nodeCount` nodes at the anchor, each but the first jointed to its
        predecessor. */
    method CreateRopeNodes(anchorPosition: Vec3)
      requires nodes == [] && nodeJoints == map[]
      modifies this`nodes, this`nodeJoints, this`containerExists, this`containerActive,
               this`lineRendererExists, this`lineEnabled, this`linePositions
      ensures containerExists && containerActive && lineRendererExists && lineEnabled
      ensures |linePositions| == config.nodeCount + 1
      ensures |nodes| == config.nodeCount
      ensures forall i :: 0 <= i < |nodes| ==> nodes[i] == NewNode(i, anchorPosition, NodeLayer(), config)
      ensures Chained(nodeJoints, |nodes|, config)
    {
      containerExists, containerActive := true, true;
      lineRendererExists, lineEnabled := true, true;
      ConfigureLineRenderer();
      var i := 0;
      while i < config.nodeCount
        modifies this`nodes, this`nodeJoints
        invariant 0 <= i <= config.nodeCount
        invariant |nodes| == i
        invariant forall k :: 0 <= k < i ==> nodes[k] == NewNode(k, anchorPosition, NodeLayer(), config)
        invariant Chained(nodeJoints, i, config)
      {
        var node := CreateNode(i, anchorPosition);
        nodes := nodes + [node];
        if i > 0 {
          ConfigureNodeSpringJoint(i, i - 1);
        }
        i := i + 1;
      }
    }

    /** `CreateNode`. */
    method CreateNode(index: nat, position: Vec3) returns (node: Node)
      ensures node == NewNode(index, position, NodeLayer(), config)
    {
      var layer := GetLayerFromMask(config.ropeLayer);
      node := Node(position, Zero3, Zero3, false, layer, config.nodeMass, config.nodeDamping,
                   config.colliderRadius);
      if index == 0 {
        node := node.(isKinematic := true);
      }
    }

    /** `ConfigureNodeSpringJoint`, on the node with index `node`. */
    method ConfigureNodeSpringJoint(node: nat, connectedNode: nat)
      modifies this`nodeJoints
      ensures nodeJoints == old(nodeJoints)[node := NodeJointTo(connectedNode, config)]
    {
      nodeJoints := nodeJoints[node := NodeJoint(connectedNode, config.springStrength, config.springDamper,
                                                 0.0, config.nodeSpacing)];
    }

    /** `ConfigurePlayerSpringJoint`. */
    method ConfigurePlayerSpringJoint()
      modifies this`playerJoint
      ensures playerJoint == Some(PlayerJointFor(|nodes|, config))
    {
      var last := GetLastNode();
      playerJoint := Some(PlayerJoint(last, config.playerAnchorOffset, config.playerSpringStrength,
                                      config.playerSpringDamper, 0.0, 0.0,
                                      config.playerMassScale, config.connectedMassScale));
    }

    /** `ReactivateRope`: activate the container and reset every node to the
        anchor, bringing the physics-driven ones to rest. */
    method ReactivateRope(anchorPosition: Vec3)
      modifies this`containerActive, this`nodes
      ensures containerActive
      ensures nodes == Reactivated(old(nodes), anchorPosition)
    {
      containerActive := true;
      var i := 0;
      while i < |nodes|
        modifies this`nodes
        invariant 0 <= i <= |nodes| == |old(nodes)|
        invariant forall k :: 0 <= k < i ==> nodes[k] == Reset(old(nodes)[k], anchorPosition)
        invariant forall k :: i <= k < |nodes| ==> nodes[k] == old(nodes)[k]
      {
        var node := nodes[i];
        node := node.(position := anchorPosition);
        if !node.isKinematic {
          node := node.(linearVelocity := Zero3, angularVelocity := Zero3);
        }
        nodes := nodes[i := node];
        i := i + 1;
      }
    }

    /** `ConfigureLineRenderer`: one position per node and one for the player. */
    method ConfigureLineRenderer()
      modifies this`linePositions
      ensures |linePositions| == config.nodeCount + 1
    {
      linePositions := seq(config.nodeCount + 1, _ => Zero3);
    }

    /** `UpdateLineRenderer` (run every `LateUpdate`), with the player at
        `playerPosition`. */
    method UpdateLineRenderer(playerPosition: Vec3)
      requires Valid()
      modifies this`lineEnabled, this`linePositions
      ensures Valid()
      ensures isDeployed ==>
        lineEnabled && linePositions == RenderSequence(nodes, Add(playerPosition, config.playerAnchorOffset))
      ensures !isDeployed ==> linePositions == old(linePositions) && (lineRendererExists ==> !lineEnabled)
    {
      if !isDeployed || !lineRendererExists {
        if lineRendererExists {
          lineEnabled := false;
        }
        return;
      }
      lineEnabled := true;
      var i := 0;
      while i < |nodes|
        modifies this`linePositions
        invariant 0 <= i <= |nodes|
        invariant |linePositions| == config.nodeCount + 1
        invariant forall k :: 0 <= k < i ==> linePositions[k] == nodes[k].position
      {
        linePositions := linePositions[i := nodes[i].position];
        i := i + 1;
      }
      linePositions := linePositions[config.nodeCount := Add(playerPosition, config.playerAnchorOffset)];
      ghost var expected := RenderSequence(nodes, Add(playerPosition, config.playerAnchorOffset));
      assert forall k :: 0 <= k < |linePositions| ==> linePositions[k] == expected[k];
    }
  }
}
