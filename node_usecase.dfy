/** Nodes: created inside an existing workflow, listed with an optional
    workflow filter, read, moved on the canvas, and deleted together with
    their edges and configuration rows. A node's type and workflow are
    fixed at creation: no patch carries them. */
module NodeUsecase {
  import opened Rows
  import opened Schema
  import opened Store

  /* ---------- create_node ---------- */

  function CreateNodeEffect(t: Tables, workflowId: int, nodeType: NodeType, positionX: Float, positionY: Float)
    : (r: Effect<Node>)
    ensures r.result.Failure? <==> workflowId !in t.workflows
    ensures r.result.Failure? ==> r.result.error == WorkflowNotFound && r.after == t
    ensures r.result.Success? ==>
      var n := r.result.value;
      && n.workflowId == workflowId && n.nodeType == nodeType
      && n.positionX == positionX && n.positionY == positionY
      && (KeysAreIds(t) ==> n.id !in t.nodes)
      && r.after == t.(nodes := t.nodes[n.id := n], next := t.next.(node := r.after.next.node))
      && r.after.next.node > n.id
    ensures Valid(t) ==> Valid(r.after)
  {
    if workflowId !in t.workflows then Effect(Failure(WorkflowNotFound), t)
    else InsertNode(t, workflowId, nodeType, positionX, positionY)
  }

  /** No owner check: any existing workflow is accepted. */
  method CreateNode(
    db: Database, workflowId: int, nodeType: NodeType,
    positionX: Float := DefaultPosition, positionY: Float := DefaultPosition)
    returns (r: Result<Node>)
    requires Valid(db.State())
    modifies db
    ensures Valid(db.State())
    ensures Effect(r, db.State()) == CreateNodeEffect(old(db.State()), workflowId, nodeType, positionX, positionY)
  {
    if Lookup(db.workflows, workflowId).None? {
      return Failure(WorkflowNotFound);
    }
    ghost var before := db.State();
    r := db.InsertNode(workflowId, nodeType, positionX, positionY);
    assert Effect(r, db.State()) == CreateNodeEffect(before, workflowId, nodeType, positionX, positionY);
  }

  /* ---------- reads ---------- */

  /** All nodes, or only those of `workflowId` when it is truthy. */
  function GetNodes(t: Tables, workflowId: Option<int>): (r: map<int, Node>)
    ensures forall k :: k in r <==> k in t.nodes && (Truthy(workflowId) ==> t.nodes[k].workflowId == workflowId.value)
    ensures forall k :: k in r ==> r[k] == t.nodes[k]
  {
    if Truthy(workflowId) then Where(t.nodes, (n: Node) => n.workflowId == workflowId.value)
    else t.nodes
  }

  function GetNode(t: Tables, nodeId: int): (r: Result<Node>)
    ensures r.Success? <==> nodeId in t.nodes
    ensures r.Success? ==> r.value == t.nodes[nodeId]
    ensures r.Failure? ==> r.error == NodeNotFound
  {
    match Lookup(t.nodes, nodeId)
    case None => Failure(NodeNotFound)
    case Some(n) => Success(n)
  }

  /* ---------- update_node ---------- */

  function UpdateNodeEffect(t: Tables, nodeId: int, p: NodePatch): (r: Effect<Node>)
    ensures r.result.Success? <==> nodeId in t.nodes
    ensures r.result.Failure? ==> r.result.error == NodeNotFound && r.after == t
    ensures p.IsEmpty() ==> r.after == t
    ensures r.result.Success? ==>
      var n := r.result.value;
      var old_ := t.nodes[nodeId];
      && n.id == old_.id && n.workflowId == old_.workflowId && n.nodeType == old_.nodeType
      && n.positionX == p.positionX.GetOr(old_.positionX)
      && n.positionY == p.positionY.GetOr(old_.positionY)
      && r.after == t.(nodes := t.nodes[nodeId := n])
    ensures Valid(t) ==> Valid(r.after)
  {
    if p.IsEmpty() then Effect(GetNode(t, nodeId), t)
    else OrNotFound(UpdateNodeBy(t, nodeId, p), NodeNotFound)
  }

  method UpdateNode(db: Database, nodeId: int, p: NodePatch) returns (r: Result<Node>)
    requires Valid(db.State())
    modifies db
    ensures Valid(db.State())
    ensures Effect(r, db.State()) == UpdateNodeEffect(old(db.State()), nodeId, p)
  {
    if p.IsEmpty() {
      return GetNode(db.State(), nodeId);
    }
    ghost var before := db.State();
    var updated := db.UpdateNodeBy(nodeId, p);
    if updated.value.None? {
      return Failure(NodeNotFound);
    }
    r := Success(updated.value.value);
    assert Effect(r, db.State()) == UpdateNodeEffect(before, nodeId, p);
  }

  /* ---------- delete_node ---------- */

  function DeleteNodeEffect(t: Tables, nodeId: int): (r: Effect<()>)
    ensures r.result.Success? <==> nodeId in t.nodes
    ensures r.result.Failure? ==> r.result.error == NodeNotFound && r.after == t
    ensures r.result.Success? ==> r.after == DeleteNodes(t, {nodeId})
    ensures Valid(t) ==> Valid(r.after)
  {
    var r := DeletedOr(DeleteNodeBy(t, nodeId), NodeNotFound);
    assert Valid(t) ==> Valid(r.after) by {
      if Valid(t) && nodeId in t.nodes {
        DeleteNodesKeepsValid(t, {nodeId});
      }
    }
    r
  }

  method DeleteNode(db: Database, nodeId: int) returns (r: Result<()>)
    requires Valid(db.State())
    modifies db
    ensures Valid(db.State())
    ensures Effect(r, db.State()) == DeleteNodeEffect(old(db.State()), nodeId)
  {
    ghost var before := db.State();
    var deleted := db.DeleteNodeBy(nodeId);
    if !deleted.value {
      return Failure(NodeNotFound);
    }
    r := Success(());
    assert Effect(r, db.State()) == DeleteNodeEffect(before, nodeId);
  }

  /* ---------- properties ---------- */

  /** Deleting a node removes every edge that has it as source or target
      and its configuration rows; a later read of the node fails. */
  lemma DeleteNodeCascades(t: Tables, nodeId: int)
    requires nodeId in t.nodes
    ensures var a := DeleteNodeEffect(t, nodeId).after;
      && GetNode(a, nodeId) == Failure(NodeNotFound)
      && (forall k :: k in a.edges ==> a.edges[k].sourceNodeId != nodeId && a.edges[k].targetNodeId != nodeId)
      && nodeId !in a.inputNodes && nodeId !in a.llmNodes && nodeId !in a.outputNodes
  {
  }

  /** Deleting the same node twice: the first call succeeds, the second
      raises NodeNotFound and changes nothing. */
  lemma DeleteNodeTwice(t: Tables, nodeId: int)
    requires nodeId in t.nodes
    ensures DeleteNodeEffect(t, nodeId).result == Success(())
    ensures var a := DeleteNodeEffect(t, nodeId).after;
      DeleteNodeEffect(a, nodeId) == Effect(Failure(NodeNotFound), a)
  {
  }
}
