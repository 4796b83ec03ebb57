/** Orders: the chain of nodes and edges, its validation, and the stitching of one order onto another. */
module Orders {

  datatype Option<+T> = None | Some(value: T)

  datatype BlockingType = NoBlocking | Soft | Hard

  datatype Action = Action(actionId: string, blockingType: BlockingType)

  /** Status of an action. */
  datatype Status = Waiting | Initializing | Running | Paused | Finished | Failed

  predicate Ended(s: Status) {
    s.Finished? || s.Failed?
  }

  datatype Node = Node(nodeId: string, sequenceId: int, released: bool, actions: seq<Action>)

  datatype Edge = Edge(edgeId: string, sequenceId: int, released: bool,
                       startNodeId: string, endNodeId: string, actions: seq<Action>)

  datatype Order = Order(orderId: string, orderUpdateId: nat, nodes: seq<Node>, edges: seq<Edge>)

  datatype Invalid =
    | NoBaseNode
    | NodeSequence
    | NodeBaseAfterHorizon
    | EdgeCount
    | EdgeSequence
    | EdgeBaseAfterHorizon
    | EdgeEnds

  datatype Verdict = Accepted | Refused(reason: Invalid)

  // ---------- What a well-formed order is ----------

  predicate NodeChain(nodes: seq<Node>) {
    && |nodes| > 0
    && nodes[0].sequenceId % 2 == 0
    && forall i :: 0 <= i < |nodes| ==> nodes[i].sequenceId == nodes[0].sequenceId + 2 * i
  }

  /** Edge `i` lies between nodes `i` and `i + 1`. */
  predicate EdgeFits(o: Order, i: nat)
    requires i < |o.edges| && |o.edges| + 1 == |o.nodes|
  {
    && o.edges[i].sequenceId == o.nodes[i].sequenceId + 1
    && o.edges[i].startNodeId == o.nodes[i].nodeId
    && o.edges[i].endNodeId == o.nodes[i + 1].nodeId
  }

  predicate Linked(o: Order) {
    && |o.edges| + 1 == |o.nodes|
    && forall i :: 0 <= i < |o.edges| ==> EdgeFits(o, i)
  }

  /** Number of leading released nodes: the base. */
  function BaseLen(nodes: seq<Node>): (n: nat)
    ensures n <= |nodes|
    ensures forall i :: 0 <= i < n ==> nodes[i].released
    ensures n < |nodes| ==> !nodes[n].released
  {
    if nodes == [] || !nodes[0].released then 0 else 1 + BaseLen(nodes[1..])
  }

  function EdgeBaseLen(edges: seq<Edge>): (n: nat)
    ensures n <= |edges|
    ensures forall i :: 0 <= i < n ==> edges[i].released
    ensures n < |edges| ==> !edges[n].released
  {
    if edges == [] || !edges[0].released then 0 else 1 + EdgeBaseLen(edges[1..])
  }

  /** No released node comes after the base. */
  predicate BaseFirst(nodes: seq<Node>) {
    forall i :: BaseLen(nodes) <= i < |nodes| ==> !nodes[i].released
  }

  /** An edge is released exactly when its end node is. */
  predicate Aligned(o: Order) {
    && |o.edges| + 1 == |o.nodes|
    && forall i :: 0 <= i < |o.edges| ==> o.edges[i].released == o.nodes[i + 1].released
  }

  predicate AllEdgesReleased(o: Order) {
    forall i :: 0 <= i < |o.edges| ==> o.edges[i].released
  }

  predicate Chain(o: Order) {
    && NodeChain(o.nodes)
    && o.nodes[0].released
    && BaseFirst(o.nodes)
    && Linked(o)
  }

  predicate WellFormed(o: Order) {
    Chain(o) && (AllEdgesReleased(o) || Aligned(o))
  }

  predicate AlignedChain(o: Order) {
    Chain(o) && Aligned(o)
  }

  // ---------- Lookups ----------

  /** Index of the edge that leaves `node`, looked up from index `from` on. */
  function TrailingEdge(edges: seq<Edge>, node: Node, from: nat := 0): (e: Option<nat>)
    requires from <= |edges|
    ensures e.Some? ==> e.value < |edges|
    decreases |edges| - from
  {
    if from == |edges| then None
    else if edges[from].startNodeId == node.nodeId && edges[from].sequenceId == node.sequenceId + 1 then Some(from)
    else TrailingEdge(edges, node, from + 1)
  }

  function FindNode(nodes: seq<Node>, nodeId: string, sequenceId: int, from: nat := 0): (n: Option<nat>)
    requires from <= |nodes|
    ensures n.Some? ==> n.value < |nodes| && nodes[n.value].nodeId == nodeId && nodes[n.value].sequenceId == sequenceId
    decreases |nodes| - from
  {
    if from == |nodes| then None
    else if nodes[from].nodeId == nodeId && nodes[from].sequenceId == sequenceId then Some(from)
    else FindNode(nodes, nodeId, sequenceId, from + 1)
  }

  function EndNode(nodes: seq<Node>, edge: Edge): Option<nat> {
    FindNode(nodes, edge.endNodeId, edge.sequenceId + 1)
  }

  /** On a chain the lookups go by position. */
  lemma {:induction false} TrailingEdgeOnChain(o: Order, k: nat, from: nat)
    requires Chain(o) && k < |o.nodes| && from <= k && from <= |o.edges|
    ensures TrailingEdge(o.edges, o.nodes[k], from) == if k < |o.edges| then Some(k) else None
    decreases k - from
  {
    if from < |o.edges| {
      assert EdgeFits(o, from);
      if from < k {
        TrailingEdgeOnChain(o, k, from + 1);
      }
    }
  }

  lemma {:induction false} FindNodeOnChain(o: Order, k: nat, from: nat)
    requires Chain(o) && from <= k < |o.nodes|
    ensures FindNode(o.nodes, o.nodes[k].nodeId, o.nodes[k].sequenceId, from) == Some(k)
    decreases k - from
  {
    if from < k {
      FindNodeOnChain(o, k, from + 1);
    }
  }

  lemma {:induction false} EndNodeOnChain(o: Order, k: nat)
    requires Chain(o) && k < |o.edges|
    ensures EndNode(o.nodes, o.edges[k]) == Some(k + 1)
  {
    assert EdgeFits(o, k);
    FindNodeOnChain(o, k + 1, 0);
  }

  // ---------- Validation ----------

  /** The node loop of the validation: also yields the index of the first horizon node, or -1. */
  method ValidateNodes(nodes: seq<Node>) returns (v: Verdict, firstHorizonIndex: int)
    ensures v.Accepted? <==> NodeChain(nodes) && nodes[0].released && BaseFirst(nodes)
    ensures v.Accepted? ==> firstHorizonIndex == if BaseLen(nodes) == |nodes| then -1 else BaseLen(nodes)
  {
    firstHorizonIndex := -1;
    if |nodes| == 0 || !nodes[0].released {
      return Refused(NoBaseNode), -1;
    }
    var isBase := true;
    var i := 0;
    while i < |nodes|
      invariant 0 <= i <= |nodes|
      invariant i > 0 ==> nodes[0].sequenceId % 2 == 0
      invariant forall j :: 0 <= j < i ==> nodes[j].sequenceId == nodes[0].sequenceId + 2 * j
      invariant isBase ==> firstHorizonIndex == -1 && forall j :: 0 <= j < i ==> nodes[j].released
      invariant !isBase ==> 0 < firstHorizonIndex < i
      invariant !isBase ==> forall j :: 0 <= j < i ==> (nodes[j].released <==> j < firstHorizonIndex)
    {
      var node := nodes[i];
      if (i == 0 && node.sequenceId % 2 != 0) || (i > 0 && node.sequenceId != nodes[i - 1].sequenceId + 2) {
        assert !NodeChain(nodes);
        return Refused(NodeSequence), firstHorizonIndex;
      }
      if isBase {
        isBase := node.released;
        if !isBase {
          firstHorizonIndex := i;
        }
      } else {
        if node.released {
          assert !BaseFirst(nodes);
          return Refused(NodeBaseAfterHorizon), firstHorizonIndex;
        }
      }
      i := i + 1;
    }
    v := Accepted;
    if isBase {
      BaseLenIs(nodes, |nodes|);
    } else {
      BaseLenIs(nodes, firstHorizonIndex);
    }
  }

  /** The edge loop of the validation, for a node chain whose base ends where `firstHorizonIndex` says. */
  method ValidateEdges(o: Order, firstHorizonIndex: int) returns (v: Verdict)
    requires |o.edges| + 1 == |o.nodes|
    requires firstHorizonIndex == -1 || 0 < firstHorizonIndex < |o.nodes|
    requires forall i :: 0 <= i < |o.nodes| ==>
      (o.nodes[i].released <==> firstHorizonIndex == -1 || i < firstHorizonIndex)
    ensures v.Accepted? <==> Linked(o) && (AllEdgesReleased(o) || Aligned(o))
  {
    var isBase := true;
    var i := 0;
    while i < |o.edges|
      invariant 0 <= i <= |o.edges|
      invariant forall j :: 0 <= j < i ==> EdgeFits(o, j)
      invariant isBase ==> forall j :: 0 <= j < i ==> o.edges[j].released
      invariant !isBase ==> 0 < firstHorizonIndex <= i
      invariant !isBase ==> forall j :: 0 <= j < i ==> (o.edges[j].released <==> j + 1 < firstHorizonIndex)
    {
      var edge := o.edges[i];
      if edge.sequenceId != o.nodes[i].sequenceId + 1 {
        assert !EdgeFits(o, i);
        return Refused(EdgeSequence);
      }
      if isBase {
        isBase := edge.released;
        if !isBase && firstHorizonIndex != i + 1 {
          ReleaseMismatch(o, firstHorizonIndex, i);
          return Refused(EdgeBaseAfterHorizon);
        }
      } else {
        if edge.released {
          assert !o.edges[firstHorizonIndex - 1].released;
          assert !o.nodes[i + 1].released;
          return Refused(EdgeBaseAfterHorizon);
        }
      }
      if edge.startNodeId != o.nodes[i].nodeId || edge.endNodeId != o.nodes[i + 1].nodeId {
        assert !EdgeFits(o, i);
        return Refused(EdgeEnds);
      }
      i := i + 1;
    }
    v := Accepted;
  }

  /** An edge leaves the base although its end node does not start the horizon. */
  lemma {:induction false} ReleaseMismatch(o: Order, firstHorizonIndex: int, i: nat)
    requires |o.edges| + 1 == |o.nodes| && i < |o.edges|
    requires firstHorizonIndex == -1 || 0 < firstHorizonIndex < |o.nodes|
    requires forall k :: 0 <= k < |o.nodes| ==>
      (o.nodes[k].released <==> firstHorizonIndex == -1 || k < firstHorizonIndex)
    requires forall k :: 0 <= k < i ==> o.edges[k].released
    requires !o.edges[i].released && firstHorizonIndex != i + 1
    ensures !AllEdgesReleased(o) && !Aligned(o)
  {
    if o.nodes[i + 1].released {
      assert o.edges[i].released != o.nodes[i + 1].released;
    } else {
      var k := firstHorizonIndex - 1;
      assert 0 <= k < i;
      assert o.edges[k].released != o.nodes[k + 1].released;
    }
  }

  /** The whole validation accepts exactly the well-formed orders. */
  method ValidateOrderConstraints(o: Order) returns (v: Verdict)
    ensures v.Accepted? <==> WellFormed(o)
  {
    var firstHorizonIndex;
    v, firstHorizonIndex := ValidateNodes(o.nodes);
    if v.Refused? {
      return;
    }
    if |o.edges| + 1 != |o.nodes| {
      return Refused(EdgeCount);
    }
    v := ValidateEdges(o, firstHorizonIndex);
  }

  lemma {:induction false} BaseLenIs(nodes: seq<Node>, n: nat)
    requires n <= |nodes|
    requires forall i :: 0 <= i < n ==> nodes[i].released
    requires n < |nodes| ==> !nodes[n].released
    ensures BaseLen(nodes) == n
  {
  }

  lemma {:induction false} EdgeBaseLenIs(edges: seq<Edge>, n: nat)
    requires n <= |edges|
    requires forall i :: 0 <= i < n ==> edges[i].released
    requires n < |edges| ==> !edges[n].released
    ensures EdgeBaseLen(edges) == n
  {
  }

  // ---------- Stitching ----------

  predicate HasBase(o: Order) {
    |o.nodes| > 0 && o.nodes[0].released
  }

  /** The last node of the base, onto which another order may be stitched. */
  function BaseEnd(o: Order): Node
    requires HasBase(o)
  {
    o.nodes[BaseLen(o.nodes) - 1]
  }

  /** The first node of `o` is the end node of the base of `current`. */
  predicate ExtendsBase(current: Order, o: Order)
    requires HasBase(current) && |o.nodes| > 0
  {
    && BaseEnd(current).nodeId == o.nodes[0].nodeId
    && BaseEnd(current).sequenceId == o.nodes[0].sequenceId
  }

  /** The horizon of `current` is replaced by `o`; the actions of the first node of `o` go to the base end. */
  function Stitch(current: Order, o: Order): Order
    requires HasBase(current) && |o.nodes| > 0
  {
    var b := BaseLen(current.nodes);
    var baseEnd := current.nodes[b - 1];
    Order(o.orderId, o.orderUpdateId,
          current.nodes[..b - 1] + [baseEnd.(actions := baseEnd.actions + o.nodes[0].actions)] + o.nodes[1..],
          current.edges[..EdgeBaseLen(current.edges)] + o.edges)
  }

  lemma {:induction false} AlignedEdgeBase(o: Order)
    requires AlignedChain(o)
    ensures EdgeBaseLen(o.edges) == BaseLen(o.nodes) - 1
  {
    var b := BaseLen(o.nodes);
    forall i | 0 <= i < b - 1
      ensures o.edges[i].released
    {
      assert o.edges[i].released == o.nodes[i + 1].released;
    }
    if b < |o.nodes| {
      assert o.edges[b - 1].released == o.nodes[b].released;
    }
    EdgeBaseLenIs(o.edges, b - 1);
  }

  lemma {:induction false} StitchParts(current: Order, o: Order)
    requires AlignedChain(current) && Chain(o)
    ensures var s, b := Stitch(current, o), BaseLen(current.nodes);
      && |s.nodes| == b - 1 + |o.nodes| && |s.edges| == b - 1 + |o.edges|
      && s.nodes[..b - 1] == current.nodes[..b - 1]
      && s.nodes[b - 1] == current.nodes[b - 1].(actions := current.nodes[b - 1].actions + o.nodes[0].actions)
      && s.nodes[b..] == o.nodes[1..]
      && s.edges[..b - 1] == current.edges[..b - 1]
      && s.edges[b - 1..] == o.edges
      && (forall i :: 0 <= i < b - 1 ==> s.nodes[i] == current.nodes[i] && s.edges[i] == current.edges[i])
      && (forall i :: b <= i < |s.nodes| ==> s.nodes[i] == o.nodes[i - (b - 1)])
      && (forall i :: b - 1 <= i < |s.edges| ==> s.edges[i] == o.edges[i - (b - 1)])
  {
    var b := BaseLen(current.nodes);
    StitchNodeParts(current, o);
    assert EdgeBaseLen(current.edges) == b - 1 by {
      AlignedEdgeBase(current);
    }
    StitchEdgeParts(current, o, b - 1);
  }

  lemma {:induction false} StitchNodeParts(current: Order, o: Order)
    requires HasBase(current) && |o.nodes| > 0
    ensures var nodes, b := Stitch(current, o).nodes, BaseLen(current.nodes);
      && |nodes| == b - 1 + |o.nodes|
      && nodes[..b - 1] == current.nodes[..b - 1]
      && nodes[b - 1] == current.nodes[b - 1].(actions := current.nodes[b - 1].actions + o.nodes[0].actions)
      && nodes[b..] == o.nodes[1..]
      && (forall i :: 0 <= i < b - 1 ==> nodes[i] == current.nodes[i])
      && (forall i :: b <= i < |nodes| ==> nodes[i] == o.nodes[i - (b - 1)])
  {
  }

  lemma {:induction false} StitchEdgeParts(current: Order, o: Order, n: nat)
    requires HasBase(current) && |o.nodes| > 0 && EdgeBaseLen(current.edges) == n
    ensures var edges := Stitch(current, o).edges;
      && |edges| == n + |o.edges| && edges[..n] == current.edges[..n] && edges[n..] == o.edges
      && (forall i :: 0 <= i < n ==> edges[i] == current.edges[i])
      && (forall i :: n <= i < |edges| ==> edges[i] == o.edges[i - n])
  {
  }

  lemma {:induction false} StitchEdges(current: Order, o: Order, i: nat)
    requires AlignedChain(current) && Chain(o) && ExtendsBase(current, o)
    requires |Stitch(current, o).edges| + 1 == |Stitch(current, o).nodes| && i < |Stitch(current, o).edges|
    ensures EdgeFits(Stitch(current, o), i)
    ensures Aligned(o) ==> Stitch(current, o).edges[i].released == Stitch(current, o).nodes[i + 1].released
  {
    var b := BaseLen(current.nodes);
    StitchParts(current, o);
    if i < b - 1 {
      assert EdgeFits(current, i);
    } else {
      assert EdgeFits(o, i - (b - 1));
    }
  }

  lemma {:induction false} StitchNodes(current: Order, o: Order)
    requires AlignedChain(current) && Chain(o) && ExtendsBase(current, o)
    ensures NodeChain(Stitch(current, o).nodes) && Stitch(current, o).nodes[0].released
    ensures BaseLen(Stitch(current, o).nodes) == BaseLen(current.nodes) - 1 + BaseLen(o.nodes)
    ensures BaseFirst(Stitch(current, o).nodes)
  {
    var s, b := Stitch(current, o), BaseLen(current.nodes);
    StitchParts(current, o);
    forall i | 0 <= i < |s.nodes|
      ensures s.nodes[i].sequenceId == current.nodes[0].sequenceId + 2 * i
      ensures s.nodes[i].released <==> i < b - 1 + BaseLen(o.nodes)
    {
      if i >= b {
        assert s.nodes[i] == o.nodes[i - (b - 1)];
      }
    }
    BaseLenIs(s.nodes, b - 1 + BaseLen(o.nodes));
  }

  /** Stitching keeps the base as the route walked so far, drops the old horizon and stays an aligned chain. */
  lemma {:induction false} StitchKeepsAlignedChain(current: Order, o: Order)
    requires AlignedChain(current) && AlignedChain(o) && ExtendsBase(current, o)
    ensures AlignedChain(Stitch(current, o))
    ensures var s, b := Stitch(current, o), BaseLen(current.nodes);
      && s.nodes[..b - 1] == current.nodes[..b - 1]
      && s.nodes[b - 1] == current.nodes[b - 1].(actions := current.nodes[b - 1].actions + o.nodes[0].actions)
      && s.nodes[b..] == o.nodes[1..]
      && s.edges[..b - 1] == current.edges[..b - 1]
      && s.edges[b - 1..] == o.edges
      && BaseLen(s.nodes) == b - 1 + BaseLen(o.nodes)
  {
    StitchParts(current, o);
    StitchNodes(current, o);
    var s := Stitch(current, o);
    forall i | 0 <= i < |s.edges|
      ensures EdgeFits(s, i) && s.edges[i].released == s.nodes[i + 1].released
    {
      StitchEdges(current, o, i);
    }
  }

  /**
   Of all the well-formed orders a vehicle can be walking, stitching stays well formed exactly for the aligned ones.
   */
  lemma {:induction false} StitchWellFormedIffAligned(current: Order, o: Order)
    requires WellFormed(current) && WellFormed(o) && ExtendsBase(current, o)
    ensures WellFormed(Stitch(current, o)) <==> Aligned(current)
  {
    var s := Stitch(current, o);
    if Aligned(current) {
      StitchParts(current, o);
      StitchNodes(current, o);
      AlignedEdgeBase(current);
      forall i | 0 <= i < |s.edges|
        ensures EdgeFits(s, i)
      {
        StitchEdges(current, o, i);
      }
      if Aligned(o) {
        StitchKeepsAlignedChain(current, o);
      }
    } else {
      EdgeBaseLenIs(current.edges, |current.edges|);
      UnalignedHasHorizon(current);
    }
  }

  lemma {:induction false} UnalignedHasHorizon(o: Order)
    requires WellFormed(o) && !Aligned(o)
    ensures BaseLen(o.nodes) < |o.nodes|
  {
  }
}
