/** Output-node configuration: at most one row per node, and only for a node
    whose declared type is OUTPUT. Rows are keyed by their node's id. */
module OutputNodeUsecase {
  import opened Rows
  import opened Schema
  import opened Store

  /* ---------- create_output_node ---------- */

  /** Checks in order: the node exists, its type is OUTPUT, it has no output
      configuration yet. */
  function CreateOutputNodeEffect(t: Tables, nodeId: int, format: OutputFormat): (r: Effect<OutputNode>)
    ensures r.result.Failure? ==> r.after == t
    ensures nodeId !in t.nodes ==> r.result == Failure(NodeNotFound)
    ensures nodeId in t.nodes && t.nodes[nodeId].nodeType != OUTPUT ==> r.result == Failure(NodeTypeMismatch)
    ensures HasType(t, nodeId, OUTPUT) && nodeId in t.outputNodes ==> r.result == Failure(NodeConfigExists)
    ensures r.result.Success? <==> HasType(t, nodeId, OUTPUT) && nodeId !in t.outputNodes
    ensures r.result.Success? ==>
      && r.result.value == OutputNode(nodeId, format)
      && r.after == t.(outputNodes := t.outputNodes[nodeId := r.result.value])
    ensures Valid(t) ==> Valid(r.after)
  {
    if nodeId !in t.nodes then Effect(Failure(NodeNotFound), t)
    else if t.nodes[nodeId].nodeType != OUTPUT then Effect(Failure(NodeTypeMismatch), t)
    else if nodeId in t.outputNodes then Effect(Failure(NodeConfigExists), t)
    else InsertOutputNode(t, nodeId, format)
  }

  method CreateOutputNode(db: Database, nodeId: int, format: OutputFormat := DefaultOutputFormat)
    returns (r: Result<OutputNode>)
    requires Valid(db.State())
    modifies db
    ensures Valid(db.State())
    ensures Effect(r, db.State()) == CreateOutputNodeEffect(old(db.State()), nodeId, format)
  {
    var node := Lookup(db.nodes, nodeId);
    if node.None? {
      return Failure(NodeNotFound);
    }
    if node.value.nodeType != OUTPUT {
      return Failure(NodeTypeMismatch);
    }
    var existing := Lookup(db.outputNodes, nodeId);
    if existing.Some? {
      return Failure(NodeConfigExists);
    }
    ghost var before := db.State();
    r := db.InsertOutputNode(nodeId, format);
    assert Effect(r, db.State()) == CreateOutputNodeEffect(before, nodeId, format);
  }

  /* ---------- get_output_node ---------- */

  /** NodeNotFound when the node has no output configuration, whether or not
      the node itself exists. */
  function GetOutputNode(t: Tables, nodeId: int): (r: Result<OutputNode>)
    ensures r.Success? <==> nodeId in t.outputNodes
    ensures r.Success? ==> r.value == t.outputNodes[nodeId]
    ensures r.Failure? ==> r.error == NodeNotFound
  {
    match Lookup(t.outputNodes, nodeId)
    case None => Failure(NodeNotFound)
    case Some(c) => Success(c)
  }

  /* ---------- update_output_node ---------- */

  function UpdateOutputNodeEffect(t: Tables, nodeId: int, p: OutputNodePatch): (r: Effect<OutputNode>)
    ensures r.result.Success? <==> nodeId in t.outputNodes
    ensures r.result.Failure? ==> r.result.error == NodeNotFound && r.after == t
    ensures p.IsEmpty() ==> r.after == t
    ensures r.result.Success? ==>
      && r.result.value.nodeId == t.outputNodes[nodeId].nodeId
      && r.result.value.format == p.format.GetOr(t.outputNodes[nodeId].format)
      && r.after == t.(outputNodes := t.outputNodes[nodeId := r.result.value])
    ensures Valid(t) ==> Valid(r.after)
  {
    if p.IsEmpty() then Effect(GetOutputNode(t, nodeId), t)
    else OrNotFound(UpdateOutputNodeBy(t, nodeId, p), NodeNotFound)
  }

  method UpdateOutputNode(db: Database, nodeId: int, p: OutputNodePatch) returns (r: Result<OutputNode>)
    requires Valid(db.State())
    modifies db
    ensures Valid(db.State())
    ensures Effect(r, db.State()) == UpdateOutputNodeEffect(old(db.State()), nodeId, p)
  {
    if p.IsEmpty() {
      return GetOutputNode(db.State(), nodeId);
    }
    ghost var before := db.State();
    var updated := db.UpdateOutputNodeBy(nodeId, p);
    if updated.value.None? {
      return Failure(NodeNotFound);
    }
    r := Success(updated.value.value);
    assert Effect(r, db.State()) == UpdateOutputNodeEffect(before, nodeId, p);
  }

  /* ---------- delete_output_node ---------- */

  function DeleteOutputNodeEffect(t: Tables, nodeId: int): (r: Effect<()>)
    ensures r.result.Success? <==> nodeId in t.outputNodes
    ensures r.result.Failure? ==> r.result.error == NodeNotFound && r.after == t
    ensures r.result.Success? ==> r.after == t.(outputNodes := t.outputNodes - {nodeId})
    ensures Valid(t) ==> Valid(r.after)
  {
    DeletedOr(DeleteOutputNodeBy(t, nodeId), NodeNotFound)
  }

  method DeleteOutputNode(db: Database, nodeId: int) returns (r: Result<()>)
    requires Valid(db.State())
    modifies db
    ensures Valid(db.State())
    ensures Effect(r, db.State()) == DeleteOutputNodeEffect(old(db.State()), nodeId)
  {
    ghost var before := db.State();
    var deleted := db.DeleteOutputNodeBy(nodeId);
    if !deleted.value {
      return Failure(NodeNotFound);
    }
    r := Success(());
    assert Effect(r, db.State()) == DeleteOutputNodeEffect(before, nodeId);
  }

  /* ---------- properties ---------- */

  /** A second create for the same node is refused: one output
      configuration per node. */
  lemma SecondCreateOutputNodeFails(t: Tables, nodeId: int, first: OutputFormat, second: OutputFormat)
    requires CreateOutputNodeEffect(t, nodeId, first).result.Success?
    ensures var a := CreateOutputNodeEffect(t, nodeId, first).after;
      CreateOutputNodeEffect(a, nodeId, second) == Effect(Failure(NodeConfigExists), a)
  {
  }

  /** Create, then read back: the stored row is the one created. */
  lemma CreatedOutputNodeReadsBack(t: Tables, nodeId: int, format: OutputFormat)
    requires CreateOutputNodeEffect(t, nodeId, format).result.Success?
    ensures GetOutputNode(CreateOutputNodeEffect(t, nodeId, format).after, nodeId) == Success(OutputNode(nodeId, format))
  {
  }
}
