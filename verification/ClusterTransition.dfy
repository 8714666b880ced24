/** The local view a node derives from a shared split or merge record, and its installation
    (src/cluster/transition.rs, src/cluster/view.rs). */
module ClusterTransition {
  import opened Basics

  datatype OperationKind = Merge | Split

  datatype Assignment = Assignment(nodeId: Uuid, targetIndex: nat)

  /** `policies` stands for the service and network policies, which are copied through. */
  datatype Operation = Operation(id: Uuid, kind: OperationKind, targetViews: seq<ViewId>,
                                 assignments: seq<Assignment>, policies: nat)

  datatype Transition = Transition(operationId: Uuid, kind: OperationKind, targetView: ViewId,
                                   splitIndex: Option<nat>, localView: set<Uuid>, outOfView: set<Uuid>,
                                   policies: nat)

  datatype Outcome = Ok(value: Transition) | NoTargetView | NotAssigned

  /** The target of the first assignment of the node. */
  function FirstTarget(assignments: seq<Assignment>, node: Uuid): Option<nat> {
    if assignments == [] then None
    else if assignments[0].nodeId == node then Some(assignments[0].targetIndex)
    else FirstTarget(assignments[1..], node)
  }

  function AssignedTo(assignments: seq<Assignment>, index: nat): set<Uuid> {
    set a | a in assignments && a.targetIndex == index :: a.nodeId
  }

  function AssignedElsewhere(assignments: seq<Assignment>, index: nat): set<Uuid> {
    set a | a in assignments && a.targetIndex != index :: a.nodeId
  }

  function TransitionOf(op: Operation, local: Uuid, known: set<Uuid>): Outcome {
    match op.kind
    case Merge =>
      if op.targetViews == [] then NoTargetView
      else Ok(Transition(op.id, op.kind, op.targetViews[0], None, {}, {}, op.policies))
    case Split =>
      var index := FirstTarget(op.assignments, local);
      if index.None? then NotAssigned
      else if index.value >= |op.targetViews| then NoTargetView
      else
        var localView := AssignedTo(op.assignments, index.value);
        Ok(Transition(op.id, op.kind, op.targetViews[index.value], index, localView,
                      (known - localView) + AssignedElsewhere(op.assignments, index.value) - {local}, op.policies))
  }

  /** The source's construction: filters, a loop that adds remote nodes, and one removal. */
  method FromOperation(op: Operation, local: Uuid, known: set<Uuid>) returns (r: Outcome)
    ensures r == TransitionOf(op, local, known)
  {
    var target, index, localView, outOfView;
    match op.kind {
      case Merge =>
        if op.targetViews == [] {
          return NoTargetView;
        }
        target, index, localView, outOfView := op.targetViews[0], None, {}, {};
      case Split =>
        index := FirstTarget(op.assignments, local);
        if index.None? {
          return NotAssigned;
        }
        if index.value >= |op.targetViews| {
          return NoTargetView;
        }
        target := op.targetViews[index.value];
        localView := AssignedTo(op.assignments, index.value);
        outOfView := set peer | peer in known && peer !in localView;
        for n := 0 to |op.assignments|
          invariant outOfView == (known - localView) + AssignedElsewhere(op.assignments[..n], index.value)
        {
          assert op.assignments[..n + 1] == op.assignments[..n] + [op.assignments[n]];
          if op.assignments[n].targetIndex != index.value {
            outOfView := outOfView + {op.assignments[n].nodeId};
          }
        }
        assert op.assignments[..|op.assignments|] == op.assignments;
    }
    outOfView := outOfView - {local};
    r := Ok(Transition(op.id, op.kind, target, index, localView, outOfView, op.policies));
  }

  // ----- Installing a view -----

  class ClusterViewState {
    var activeView: ViewId
    var outOfView: set<Uuid>

    constructor (activeView: ViewId, outOfView: set<Uuid>)
      ensures this.activeView == activeView && this.outOfView == outOfView
    {
      this.activeView, this.outOfView := activeView, outOfView;
    }

    /** Replaces view and boundary together and returns the prior view. */
    method Install(next: ViewId, outOfView: set<Uuid>) returns (previous: ViewId)
      modifies this
      ensures activeView == next && this.outOfView == outOfView && previous == old(activeView)
    {
      previous := activeView;
      activeView, this.outOfView := next, outOfView;
    }

    predicate IncludesNode(node: Uuid)
      reads this
    {
      node !in outOfView
    }
  }

  // ----- Agreement between nodes -----

  ghost predicate OneAssignmentPerNode(op: Operation) {
    forall i, j :: 0 <= i < j < |op.assignments| ==> op.assignments[i].nodeId != op.assignments[j].nodeId
  }

  ghost predicate DistinctTargets(op: Operation) {
    forall i, j :: 0 <= i < j < |op.targetViews| ==> op.targetViews[i] != op.targetViews[j]
  }

  lemma {:induction false} FirstTargetFound(assignments: seq<Assignment>, node: Uuid)
    ensures FirstTarget(assignments, node).Some? <==> exists a :: a in assignments && a.nodeId == node
    ensures FirstTarget(assignments, node).Some? ==>
              Assignment(node, FirstTarget(assignments, node).value) in assignments
  {
    if assignments != [] && assignments[0].nodeId != node {
      FirstTargetFound(assignments[1..], node);
    }
  }

  lemma TargetIsUnique(op: Operation, node: Uuid, index: nat)
    requires OneAssignmentPerNode(op)
    ensures FirstTarget(op.assignments, node) == Some(index) <==> Assignment(node, index) in op.assignments
  {
    FirstTargetFound(op.assignments, node);
  }

  /** A split transition exists exactly for an assigned node whose target view exists. */
  lemma SplitSucceedsIff(op: Operation, local: Uuid, known: set<Uuid>)
    requires op.kind == Split
    ensures TransitionOf(op, local, known).NotAssigned? <==> forall a :: a in op.assignments ==> a.nodeId != local
    ensures TransitionOf(op, local, known).Ok? <==>
            exists i :: 0 <= i < |op.targetViews| && FirstTarget(op.assignments, local) == Some(i)
  {
    FirstTargetFound(op.assignments, local);
  }

  /** Two assigned nodes, each knowing whatever peers it knows, derive the same view and the same
      members exactly when they have the same target; otherwise each is out of the other's view. */
  lemma SplitViewsAgree(op: Operation, a: Uuid, b: Uuid, knownA: set<Uuid>, knownB: set<Uuid>)
    requires op.kind == Split && OneAssignmentPerNode(op) && DistinctTargets(op)
    requires TransitionOf(op, a, knownA).Ok? && TransitionOf(op, b, knownB).Ok?
    ensures var ta, tb := TransitionOf(op, a, knownA).value, TransitionOf(op, b, knownB).value;
            var same := ta.splitIndex == tb.splitIndex;
            && (ta.targetView == tb.targetView <==> same)
            && (ta.localView == tb.localView <==> same)
            && (b in ta.outOfView <==> !same)
            && (a in tb.outOfView <==> !same)
  {
    var i, j := FirstTarget(op.assignments, a).value, FirstTarget(op.assignments, b).value;
    FirstTargetFound(op.assignments, a);
    FirstTargetFound(op.assignments, b);
    TargetIsUnique(op, a, i);
    TargetIsUnique(op, a, j);
    TargetIsUnique(op, b, i);
    TargetIsUnique(op, b, j);
    MembershipByAssignment(op, a, i);
    MembershipByAssignment(op, a, j);
    MembershipByAssignment(op, b, i);
    MembershipByAssignment(op, b, j);
  }

  /** With one assignment per node, belonging to a target and being assigned elsewhere are both
      read off the node's own target. */
  lemma MembershipByAssignment(op: Operation, node: Uuid, index: nat)
    requires OneAssignmentPerNode(op)
    ensures node in AssignedTo(op.assignments, index) <==> FirstTarget(op.assignments, node) == Some(index)
    ensures node in AssignedElsewhere(op.assignments, index) <==>
            FirstTarget(op.assignments, node).Some? && FirstTarget(op.assignments, node) != Some(index)
  {
    TargetIsUnique(op, node, index);
    FirstTargetFound(op.assignments, node);
    if node in AssignedTo(op.assignments, index) {
      var x :| x in op.assignments && x.targetIndex == index && x.nodeId == node;
      assert x == Assignment(node, index);
    }
    if node in AssignedElsewhere(op.assignments, index) {
      var x :| x in op.assignments && x.targetIndex != index && x.nodeId == node;
      TargetIsUnique(op, node, x.targetIndex);
      assert x == Assignment(node, x.targetIndex);
    }
    if FirstTarget(op.assignments, node).Some? && FirstTarget(op.assignments, node) != Some(index) {
      var x := Assignment(node, FirstTarget(op.assignments, node).value);
      assert x in op.assignments;
    }
  }

  /** Inside and outside cover every known or assigned peer other than the node itself, and they
      overlap exactly when some other node is assigned both to the local target and to another. */
  lemma InsideAndOutsideCover(op: Operation, local: Uuid, known: set<Uuid>)
    requires op.kind == Split && TransitionOf(op, local, known).Ok?
    ensures var t := TransitionOf(op, local, known).value;
            var members := set x | x in op.assignments :: x.nodeId;
            && local in t.localView && local !in t.outOfView
            && (t.localView + t.outOfView) - {local} == (known + members) - {local}
            && (t.localView !! t.outOfView <==>
                forall x, y :: (x in op.assignments && y in op.assignments && x.nodeId == y.nodeId != local
                                && x.targetIndex == t.splitIndex.value) ==> y.targetIndex == t.splitIndex.value)
  {
    FirstTargetFound(op.assignments, local);
    var t := TransitionOf(op, local, known).value;
    var index := t.splitIndex.value;
    assert Assignment(local, index) in op.assignments;
    if t.localView !! t.outOfView {
      forall x, y | x in op.assignments && y in op.assignments && x.nodeId == y.nodeId != local && x.targetIndex == index
        ensures y.targetIndex == index
      {
        assert x.nodeId in t.localView;
        assert y.targetIndex != index ==> y.nodeId in AssignedElsewhere(op.assignments, index);
      }
    }
  }

  /** Once both nodes have installed their transitions, each includes the other or neither does. */
  lemma InclusionIsSymmetric(op: Operation, a: Uuid, b: Uuid, knownA: set<Uuid>, knownB: set<Uuid>,
                             atA: ClusterViewState, atB: ClusterViewState)
    requires op.kind == Split && OneAssignmentPerNode(op) && DistinctTargets(op)
    requires TransitionOf(op, a, knownA).Ok? && TransitionOf(op, b, knownB).Ok?
    requires atA.outOfView == TransitionOf(op, a, knownA).value.outOfView
    requires atB.outOfView == TransitionOf(op, b, knownB).value.outOfView
    requires atA.activeView == TransitionOf(op, a, knownA).value.targetView
    requires atB.activeView == TransitionOf(op, b, knownB).value.targetView
    ensures atA.IncludesNode(b) <==> atB.IncludesNode(a)
    ensures atA.IncludesNode(b) <==> atA.activeView == atB.activeView
  {
    SplitViewsAgree(op, a, b, knownA, knownB);
  }

  /** Node 2 assigned to both targets is inside node 1's view and outside it. */
  lemma DoubleAssignmentExample(views: seq<ViewId>)
    requires |views| == 2
    ensures var op := Operation(9, Split, views, [Assignment(1, 0), Assignment(2, 0), Assignment(2, 1)], 0);
            var outcome := TransitionOf(op, 1, {});
            outcome.Ok? && 2 in outcome.value.localView && 2 in outcome.value.outOfView
  {
    var op := Operation(9, Split, views, [Assignment(1, 0), Assignment(2, 0), Assignment(2, 1)], 0);
    assert op.assignments[1] == Assignment(2, 0) && op.assignments[2] == Assignment(2, 1);
    assert Assignment(2, 0) in op.assignments && Assignment(2, 1) in op.assignments;
  }

  /** The position of the first assignment of the node. */
  ghost predicate FirstAssignment(assignments: seq<Assignment>, node: Uuid, k: nat) {
    k < |assignments| && assignments[k].nodeId == node && forall j :: 0 <= j < k ==> assignments[j].nodeId != node
  }

  lemma {:induction false} FirstTargetAt(assignments: seq<Assignment>, node: Uuid, k: nat)
    requires FirstAssignment(assignments, node, k)
    ensures FirstTarget(assignments, node) == Some(assignments[k].targetIndex)
  {
    if k > 0 {
      assert FirstAssignment(assignments[1..], node, k - 1);
      FirstTargetAt(assignments[1..], node, k - 1);
    }
  }

  /** A split gives a node the view at the index of its first assignment, and as members exactly the
      nodes assigned to that index; with no such view there is no plan. */
  lemma SplitTakesAssignedView(op: Operation, local: Uuid, known: set<Uuid>, k: nat)
    requires op.kind == Split && FirstAssignment(op.assignments, local, k)
    ensures var index, outcome := op.assignments[k].targetIndex, TransitionOf(op, local, known);
            && (index >= |op.targetViews| <==> outcome == NoTargetView)
            && (index < |op.targetViews| ==>
                  && outcome.Ok? && outcome.value.targetView == op.targetViews[index]
                  && outcome.value.splitIndex == Some(index)
                  && (forall n :: n in outcome.value.localView <==> Assignment(n, index) in op.assignments)
                  && CopiesOperation(outcome.value, op))
  {
    FirstTargetAt(op.assignments, local, k);
    var index := op.assignments[k].targetIndex;
    forall n ensures n in AssignedTo(op.assignments, index) <==> Assignment(n, index) in op.assignments {
      if n in AssignedTo(op.assignments, index) {
        var a :| a in op.assignments && a.targetIndex == index && a.nodeId == n;
        assert a == Assignment(n, index);
      }
    }
  }

  predicate CopiesOperation(t: Transition, op: Operation) {
    t.operationId == op.id && t.kind == op.kind && t.policies == op.policies
  }

  /** A merge takes every node to the first target view and leaves nobody out. */
  lemma MergeTakesFirstView(op: Operation, a: Uuid, b: Uuid, knownA: set<Uuid>, knownB: set<Uuid>)
    requires op.kind == Merge
    ensures TransitionOf(op, a, knownA) == TransitionOf(op, b, knownB)
    ensures op.targetViews == [] <==> TransitionOf(op, a, knownA) == NoTargetView
    ensures op.targetViews != [] ==>
              && TransitionOf(op, a, knownA).Ok?
              && var t := TransitionOf(op, a, knownA).value;
              && t.targetView == op.targetViews[0] && t.splitIndex.None?
              && t.outOfView == {} && t.localView == {} && CopiesOperation(t, op)
  {
  }
}
