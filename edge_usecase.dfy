/** Edges: the usecase that keeps the graph well-formed. An edge is created,
    listed, read, re-pointed or deleted only through a workflow the caller
    owns, and its two endpoints must be existing nodes of that same
    workflow. The checks run in a fixed order and the first failure wins;
    a failed call writes nothing. */
module EdgeUsecase {
  import opened Rows
  import opened Schema
  import opened Store

  /** The endpoint checks shared by create_edge and update_edge, in their
      order: source exists, target exists, source in the workflow, target
      in the workflow. */
  function EndpointError(t: Tables, workflowId: int, sourceNodeId: int, targetNodeId: int): (r: Option<Error>)
    ensures r.None? <==> InWorkflow(t, sourceNodeId, workflowId) && InWorkflow(t, targetNodeId, workflowId)
    ensures r == Some(NodeNotFound) <==> sourceNodeId !in t.nodes || targetNodeId !in t.nodes
    ensures r.Some? ==> r.value in {NodeNotFound, EdgeNodeMismatch}
  {
    if sourceNodeId !in t.nodes then Some(NodeNotFound)
    else if targetNodeId !in t.nodes then Some(NodeNotFound)
    else if t.nodes[sourceNodeId].workflowId != workflowId then Some(EdgeNodeMismatch)
    else if t.nodes[targetNodeId].workflowId != workflowId then Some(EdgeNodeMismatch)
    else None
  }

  /** Adding an edge whose endpoints lie in its own (existing) workflow
      keeps every constraint and both graph invariants. */
  lemma InsertEdgeKeepsValid(t: Tables, workflowId: int, sourceNodeId: int, targetNodeId: int)
    requires Valid(t) && workflowId in t.workflows
    requires InWorkflow(t, sourceNodeId, workflowId) && InWorkflow(t, targetNodeId, workflowId)
    ensures Valid(InsertEdge(t, workflowId, sourceNodeId, targetNodeId).after)
  {
    var a := InsertEdge(t, workflowId, sourceNodeId, targetNodeId).after;
    assert KeysAreIds(a);
    assert ForeignKeysHold(a);
  }

  /* ---------- create_edge ---------- */

  function CreateEdgeEffect(t: Tables, userId: int, workflowId: int, sourceNodeId: int, targetNodeId: int)
    : (r: Effect<Edge>)
    ensures r.result.Failure? ==> r.after == t
    ensures !Owns(t, userId, workflowId) ==> r.result == Failure(WorkflowNotFound)
    ensures Owns(t, userId, workflowId) && (sourceNodeId !in t.nodes || targetNodeId !in t.nodes) ==>
      r.result == Failure(NodeNotFound)
    ensures (Owns(t, userId, workflowId) && sourceNodeId in t.nodes && targetNodeId in t.nodes
             && !(InWorkflow(t, sourceNodeId, workflowId) && InWorkflow(t, targetNodeId, workflowId))) ==>
      r.result == Failure(EdgeNodeMismatch)
    ensures r.result.Success? <==>
      Owns(t, userId, workflowId) && InWorkflow(t, sourceNodeId, workflowId) && InWorkflow(t, targetNodeId, workflowId)
    ensures r.result.Success? ==>
      var e := r.result.value;
      && e.workflowId == workflowId && e.sourceNodeId == sourceNodeId && e.targetNodeId == targetNodeId
      && (KeysAreIds(t) ==> e.id !in t.edges)
      && r.after == t.(edges := t.edges[e.id := e], next := t.next.(edge := r.after.next.edge))
      && r.after.next.edge > e.id
    ensures Valid(t) ==> Valid(r.after)
  {
    if !Owns(t, userId, workflowId) then Effect(Failure(WorkflowNotFound), t)
    else
      match EndpointError(t, workflowId, sourceNodeId, targetNodeId)
      case Some(err) => Effect(Failure(err), t)
      case None =>
        var r := InsertEdge(t, workflowId, sourceNodeId, targetNodeId);
        assert Valid(t) ==> Valid(r.after) by {
          if Valid(t) {
            InsertEdgeKeepsValid(t, workflowId, sourceNodeId, targetNodeId);
          }
        }
        r
  }

  method CreateEdge(db: Database, userId: int, workflowId: int, sourceNodeId: int, targetNodeId: int)
    returns (r: Result<Edge>)
    requires Valid(db.State())
    modifies db
    ensures Valid(db.State())
    ensures Effect(r, db.State()) == CreateEdgeEffect(old(db.State()), userId, workflowId, sourceNodeId, targetNodeId)
  {
    var workflow := Lookup(db.workflows, workflowId);
    if workflow.None? || workflow.value.ownerId != userId {
      return Failure(WorkflowNotFound);
    }
    var source := Lookup(db.nodes, sourceNodeId);
    if source.None? {
      return Failure(NodeNotFound);
    }
    var target := Lookup(db.nodes, targetNodeId);
    if target.None? {
      return Failure(NodeNotFound);
    }
    if source.value.workflowId != workflowId {
      return Failure(EdgeNodeMismatch);
    }
    if target.value.workflowId != workflowId {
      return Failure(EdgeNodeMismatch);
    }
    ghost var before := db.State();
    r := db.InsertEdge(workflowId, sourceNodeId, targetNodeId);
    assert Effect(r, db.State()) == CreateEdgeEffect(before, userId, workflowId, sourceNodeId, targetNodeId);
  }

  /* ---------- reads ---------- */

  /** Exactly the edges of an owned workflow. */
  function GetEdges(t: Tables, userId: int, workflowId: int): (r: Result<map<int, Edge>>)
    ensures r.Failure? <==> !Owns(t, userId, workflowId)
    ensures r.Failure? ==> r.error == WorkflowNotFound
    ensures r.Success? ==> forall k :: k in r.value <==> k in t.edges && t.edges[k].workflowId == workflowId
    ensures r.Success? ==> forall k :: k in r.value ==> r.value[k] == t.edges[k]
  {
    if !Owns(t, userId, workflowId) then Failure(WorkflowNotFound)
    else Success(Where(t.edges, (e: Edge) => e.workflowId == workflowId))
  }

  /** The edge, provided its workflow is owned by the caller. */
  function GetEdge(t: Tables, edgeId: int, userId: int): (r: Result<Edge>)
    ensures r == Failure(EdgeNotFound) <==> edgeId !in t.edges
    ensures r == Failure(WorkflowNotFound) <==> edgeId in t.edges && !Owns(t, userId, t.edges[edgeId].workflowId)
    ensures r.Success? <==> edgeId in t.edges && Owns(t, userId, t.edges[edgeId].workflowId)
    ensures r.Success? ==> r.value == t.edges[edgeId]
  {
    match Lookup(t.edges, edgeId)
    case None => Failure(EdgeNotFound)
    case Some(edge) =>
      if !Owns(t, userId, edge.workflowId) then Failure(WorkflowNotFound) else Success(edge)
  }

  /* ---------- update_edge ---------- */

  /** The edge is read (and ownership checked) first; an empty patch then
      returns it as stored. Otherwise the effective endpoints (the new value
      when supplied, else the old one) are checked against the edge's own
      workflow before the supplied fields are written. */
  function UpdateEdgeEffect(t: Tables, edgeId: int, userId: int, p: EdgePatch): (r: Effect<Edge>)
    ensures r.result.Failure? ==> r.after == t
    ensures p.IsEmpty() ==> r.after == t
    ensures edgeId !in t.edges ==> r.result == Failure(EdgeNotFound)
    ensures edgeId in t.edges && !Owns(t, userId, t.edges[edgeId].workflowId) ==> r.result == Failure(WorkflowNotFound)
    ensures edgeId in t.edges && Owns(t, userId, t.edges[edgeId].workflowId) && p.IsEmpty() ==>
      r.result == Success(t.edges[edgeId])
    ensures edgeId in t.edges && Owns(t, userId, t.edges[edgeId].workflowId) && !p.IsEmpty() ==>
      var e := t.edges[edgeId];
      var src := p.sourceNodeId.GetOr(e.sourceNodeId);
      var dst := p.targetNodeId.GetOr(e.targetNodeId);
      && ((src !in t.nodes || dst !in t.nodes) ==> r.result == Failure(NodeNotFound))
      && (src in t.nodes && dst in t.nodes && !(InWorkflow(t, src, e.workflowId) && InWorkflow(t, dst, e.workflowId)) ==>
            r.result == Failure(EdgeNodeMismatch))
      && (InWorkflow(t, src, e.workflowId) && InWorkflow(t, dst, e.workflowId) ==>
            && r.result == Success(e.(sourceNodeId := src, targetNodeId := dst))
            && r.after == t.(edges := t.edges[edgeId := r.result.value]))
    ensures Valid(t) ==> Valid(r.after)
  {
    match GetEdge(t, edgeId, userId)
    case Failure(err) => Effect(Failure(err), t)
    case Success(edge) =>
      if p.IsEmpty() then Effect(Success(edge), t)
      else
        var src := p.sourceNodeId.GetOr(edge.sourceNodeId);
        var dst := p.targetNodeId.GetOr(edge.targetNodeId);
        match EndpointError(t, edge.workflowId, src, dst)
        case Some(err) => Effect(Failure(err), t)
        case None => OrNotFound(UpdateEdgeBy(t, edgeId, p), EdgeNotFound)
  }

  method UpdateEdge(db: Database, edgeId: int, userId: int, p: EdgePatch) returns (r: Result<Edge>)
    requires Valid(db.State())
    modifies db
    ensures Valid(db.State())
    ensures Effect(r, db.State()) == UpdateEdgeEffect(old(db.State()), edgeId, userId, p)
  {
    var got := GetEdge(db.State(), edgeId, userId);
    if got.Failure? {
      return got;
    }
    var edge := got.value;
    if p.IsEmpty() {
      return Success(edge);
    }
    var src := p.sourceNodeId.GetOr(edge.sourceNodeId);
    var dst := p.targetNodeId.GetOr(edge.targetNodeId);
    var source := Lookup(db.nodes, src);
    if source.None? {
      return Failure(NodeNotFound);
    }
    var target := Lookup(db.nodes, dst);
    if target.None? {
      return Failure(NodeNotFound);
    }
    if source.value.workflowId != edge.workflowId {
      return Failure(EdgeNodeMismatch);
    }
    if target.value.workflowId != edge.workflowId {
      return Failure(EdgeNodeMismatch);
    }
    ghost var before := db.State();
    var updated := db.UpdateEdgeBy(edgeId, p);
    if updated.value.None? {
      return Failure(EdgeNotFound);
    }
    r := Success(updated.value.value);
    assert Effect(r, db.State()) == UpdateEdgeEffect(before, edgeId, userId, p);
  }

  /* ---------- delete_edge ---------- */

  function DeleteEdgeEffect(t: Tables, edgeId: int, userId: int): (r: Effect<()>)
    ensures r.result.Failure? ==> r.after == t
    ensures r.result == Failure(EdgeNotFound) <==> edgeId !in t.edges
    ensures r.result == Failure(WorkflowNotFound) <==> edgeId in t.edges && !Owns(t, userId, t.edges[edgeId].workflowId)
    ensures r.result.Success? <==> edgeId in t.edges && Owns(t, userId, t.edges[edgeId].workflowId)
    ensures r.result.Success? ==> r.after == t.(edges := t.edges - {edgeId})
    ensures Valid(t) ==> Valid(r.after)
  {
    match GetEdge(t, edgeId, userId)
    case Failure(err) => Effect(Failure(err), t)
    case Success(_) => DeletedOr(DeleteEdgeBy(t, edgeId), EdgeNotFound)
  }

  method DeleteEdge(db: Database, edgeId: int, userId: int) returns (r: Result<()>)
    requires Valid(db.State())
    modifies db
    ensures Valid(db.State())
    ensures Effect(r, db.State()) == DeleteEdgeEffect(old(db.State()), edgeId, userId)
  {
    var got := GetEdge(db.State(), edgeId, userId);
    if got.Failure? {
      return Failure(got.error);
    }
    ghost var before := db.State();
    var deleted := db.DeleteEdgeBy(edgeId);
    if !deleted.value {
      return Failure(EdgeNotFound);
    }
    r := Success(());
    assert Effect(r, db.State()) == DeleteEdgeEffect(before, edgeId, userId);
  }

  /* ---------- properties ---------- */

  /** A created edge is listed for its workflow and can be read back by the
      same user. */
  lemma CreatedEdgeIsListed(t: Tables, userId: int, workflowId: int, sourceNodeId: int, targetNodeId: int)
    requires Valid(t)
    requires CreateEdgeEffect(t, userId, workflowId, sourceNodeId, targetNodeId).result.Success?
    ensures var c := CreateEdgeEffect(t, userId, workflowId, sourceNodeId, targetNodeId);
      && GetEdge(c.after, c.result.value.id, userId) == Success(c.result.value)
      && GetEdges(c.after, userId, workflowId).Success?
      && c.result.value.id in GetEdges(c.after, userId, workflowId).value
  {
  }

  /** A workflow that exists but belongs to another user is reported as not
      found, exactly like a missing one. */
  lemma ForeignWorkflowIsNotFound(t: Tables, userId: int, workflowId: int, sourceNodeId: int, targetNodeId: int)
    requires workflowId in t.workflows && t.workflows[workflowId].ownerId != userId
    ensures CreateEdgeEffect(t, userId, workflowId, sourceNodeId, targetNodeId) == Effect(Failure(WorkflowNotFound), t)
    ensures GetEdges(t, userId, workflowId) == Failure(WorkflowNotFound)
  {
  }
}
