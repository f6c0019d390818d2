/** Input-node configuration: at most one row per node, and only for a node
    whose declared type is INPUT. Rows are keyed by their node's id. */
module InputNodeUsecase {
  import opened Rows
  import opened Schema
  import opened Store

  /* ---------- create_input_node ---------- */

  /** Checks in order: the node exists, its type is INPUT, it has no input
      configuration yet. */
  function CreateInputNodeEffect(t: Tables, nodeId: int, format: InputFormat): (r: Effect<InputNode>)
    ensures r.result.Failure? ==> r.after == t
    ensures nodeId !in t.nodes ==> r.result == Failure(NodeNotFound)
    ensures nodeId in t.nodes && t.nodes[nodeId].nodeType != INPUT ==> r.result == Failure(NodeTypeMismatch)
    ensures HasType(t, nodeId, INPUT) && nodeId in t.inputNodes ==> r.result == Failure(NodeConfigExists)
    ensures r.result.Success? <==> HasType(t, nodeId, INPUT) && nodeId !in t.inputNodes
    ensures r.result.Success? ==>
      && r.result.value == InputNode(nodeId, format)
      && r.after == t.(inputNodes := t.inputNodes[nodeId := r.result.value])
    ensures Valid(t) ==> Valid(r.after)
  {
    if nodeId !in t.nodes then Effect(Failure(NodeNotFound), t)
    else if t.nodes[nodeId].nodeType != INPUT then Effect(Failure(NodeTypeMismatch), t)
    else if nodeId in t.inputNodes then Effect(Failure(NodeConfigExists), t)
    else InsertInputNode(t, nodeId, format)
  }

  method CreateInputNode(db: Database, nodeId: int, format: InputFormat := DefaultInputFormat)
    returns (r: Result<InputNode>)
    requires Valid(db.State())
    modifies db
    ensures Valid(db.State())
    ensures Effect(r, db.State()) == CreateInputNodeEffect(old(db.State()), nodeId, format)
  {
    var node := Lookup(db.nodes, nodeId);
    if node.None? {
      return Failure(NodeNotFound);
    }
    if node.value.nodeType != INPUT {
      return Failure(NodeTypeMismatch);
    }
    var existing := Lookup(db.inputNodes, nodeId);
    if existing.Some? {
      return Failure(NodeConfigExists);
    }
    ghost var before := db.State();
    r := db.InsertInputNode(nodeId, format);
    assert Effect(r, db.State()) == CreateInputNodeEffect(before, nodeId, format);
  }

  /* ---------- get_input_node ---------- */

  /** NodeNotFound when the node has no input configuration, whether or not
      the node itself exists. */
  function GetInputNode(t: Tables, nodeId: int): (r: Result<InputNode>)
    ensures r.Success? <==> nodeId in t.inputNodes
    ensures r.Success? ==> r.value == t.inputNodes[nodeId]
    ensures r.Failure? ==> r.error == NodeNotFound
  {
    match Lookup(t.inputNodes, nodeId)
    case None => Failure(NodeNotFound)
    case Some(c) => Success(c)
  }

  /* ---------- update_input_node ---------- */

  function UpdateInputNodeEffect(t: Tables, nodeId: int, p: InputNodePatch): (r: Effect<InputNode>)
    ensures r.result.Success? <==> nodeId in t.inputNodes
    ensures r.result.Failure? ==> r.result.error == NodeNotFound && r.after == t
    ensures p.IsEmpty() ==> r.after == t
    ensures r.result.Success? ==>
      && r.result.value.nodeId == t.inputNodes[nodeId].nodeId
      && r.result.value.format == p.format.GetOr(t.inputNodes[nodeId].format)
      && r.after == t.(inputNodes := t.inputNodes[nodeId := r.result.value])
    ensures Valid(t) ==> Valid(r.after)
  {
    if p.IsEmpty() then Effect(GetInputNode(t, nodeId), t)
    else OrNotFound(UpdateInputNodeBy(t, nodeId, p), NodeNotFound)
  }

  method UpdateInputNode(db: Database, nodeId: int, p: InputNodePatch) returns (r: Result<InputNode>)
    requires Valid(db.State())
    modifies db
    ensures Valid(db.State())
    ensures Effect(r, db.State()) == UpdateInputNodeEffect(old(db.State()), nodeId, p)
  {
    if p.IsEmpty() {
      return GetInputNode(db.State(), nodeId);
    }
    ghost var before := db.State();
    var updated := db.UpdateInputNodeBy(nodeId, p);
    if updated.value.None? {
      return Failure(NodeNotFound);
    }
    r := Success(updated.value.value);
    assert Effect(r, db.State()) == UpdateInputNodeEffect(before, nodeId, p);
  }

  /* ---------- delete_input_node ---------- */

  function DeleteInputNodeEffect(t: Tables, nodeId: int): (r: Effect<()>)
    ensures r.result.Success? <==> nodeId in t.inputNodes
    ensures r.result.Failure? ==> r.result.error == NodeNotFound && r.after == t
    ensures r.result.Success? ==> r.after == t.(inputNodes := t.inputNodes - {nodeId})
    ensures Valid(t) ==> Valid(r.after)
  {
    DeletedOr(DeleteInputNodeBy(t, nodeId), NodeNotFound)
  }

  method DeleteInputNode(db: Database, nodeId: int) returns (r: Result<()>)
    requires Valid(db.State())
    modifies db
    ensures Valid(db.State())
    ensures Effect(r, db.State()) == DeleteInputNodeEffect(old(db.State()), nodeId)
  {
    ghost var before := db.State();
    var deleted := db.DeleteInputNodeBy(nodeId);
    if !deleted.value {
      return Failure(NodeNotFound);
    }
    r := Success(());
    assert Effect(r, db.State()) == DeleteInputNodeEffect(before, nodeId);
  }

  /* ---------- properties ---------- */

  /** A second create for the same node is refused: one input
      configuration per node. */
  lemma SecondCreateInputNodeFails(t: Tables, nodeId: int, first: InputFormat, second: InputFormat)
    requires CreateInputNodeEffect(t, nodeId, first).result.Success?
    ensures var a := CreateInputNodeEffect(t, nodeId, first).after;
      CreateInputNodeEffect(a, nodeId, second) == Effect(Failure(NodeConfigExists), a)
  {
  }

  /** Create, then read back: the stored row is the one created. */
  lemma CreatedInputNodeReadsBack(t: Tables, nodeId: int, format: InputFormat)
    requires CreateInputNodeEffect(t, nodeId, format).result.Success?
    ensures GetInputNode(CreateInputNodeEffect(t, nodeId, format).after, nodeId) == Success(InputNode(nodeId, format))
  {
  }
}
