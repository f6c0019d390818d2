/** LLM-node configuration: at most one row per node, only for a node whose
    declared type is LLM, and always naming an existing provider. */
module LLMNodeUsecase {
  import opened Rows
  import opened Schema
  import opened Store

  /* ---------- create_llm_node ---------- */

  /** Checks in order: the node exists, its type is LLM, the provider
      exists, the node has no LLM configuration yet. The database then
      refuses a model name wider than its column unless the excess is all
      spaces, which it cuts off. */
  function CreateLLMNodeEffect(
    t: Tables, nodeId: int, llmProviderId: int, model: string, temperature: Float, maxTokens: int)
    : (r: Effect<LLMNode>)
    ensures r.result.Failure? ==> r.after == t
    ensures nodeId !in t.nodes ==> r.result == Failure(NodeNotFound)
    ensures nodeId in t.nodes && t.nodes[nodeId].nodeType != LLM ==> r.result == Failure(NodeTypeMismatch)
    ensures HasType(t, nodeId, LLM) && llmProviderId !in t.providers ==> r.result == Failure(LLMProviderNotFound)
    ensures HasType(t, nodeId, LLM) && llmProviderId in t.providers && nodeId in t.llmNodes ==>
      r.result == Failure(NodeConfigExists)
    ensures r.result.Success? <==>
      && HasType(t, nodeId, LLM) && llmProviderId in t.providers && nodeId !in t.llmNodes
      && VarcharAccepts(model, ModelMax)
    ensures && HasType(t, nodeId, LLM) && llmProviderId in t.providers && nodeId !in t.llmNodes
            && !VarcharAccepts(model, ModelMax) ==>
      r.result == Failure(ValueTooLong)
    ensures r.result.Success? ==>
      var c := r.result.value;
      && c.nodeId == nodeId && c.llmProviderId == llmProviderId && CutTo(model, ModelMax, c.model)
      && c.temperature == temperature && c.maxTokens == maxTokens
      && r.after == t.(llmNodes := t.llmNodes[nodeId := r.result.value])
    ensures Valid(t) ==> Valid(r.after)
  {
    if nodeId !in t.nodes then Effect(Failure(NodeNotFound), t)
    else if t.nodes[nodeId].nodeType != LLM then Effect(Failure(NodeTypeMismatch), t)
    else if llmProviderId !in t.providers then Effect(Failure(LLMProviderNotFound), t)
    else if nodeId in t.llmNodes then Effect(Failure(NodeConfigExists), t)
    else InsertLLMNode(t, nodeId, llmProviderId, model, temperature, maxTokens)
  }

  method CreateLLMNode(
    db: Database, nodeId: int, llmProviderId: int, model: string,
    temperature: Float := DefaultTemperature, maxTokens: int := DefaultMaxTokens)
    returns (r: Result<LLMNode>)
    requires Valid(db.State())
    modifies db
    ensures Valid(db.State())
    ensures Effect(r, db.State()) == CreateLLMNodeEffect(old(db.State()), nodeId, llmProviderId, model, temperature, maxTokens)
  {
    var node := Lookup(db.nodes, nodeId);
    if node.None? {
      return Failure(NodeNotFound);
    }
    if node.value.nodeType != LLM {
      return Failure(NodeTypeMismatch);
    }
    var provider := Lookup(db.providers, llmProviderId);
    if provider.None? {
      return Failure(LLMProviderNotFound);
    }
    var existing := Lookup(db.llmNodes, nodeId);
    if existing.Some? {
      return Failure(NodeConfigExists);
    }
    ghost var before := db.State();
    r := db.InsertLLMNode(nodeId, llmProviderId, model, temperature, maxTokens);
    assert Effect(r, db.State()) == CreateLLMNodeEffect(before, nodeId, llmProviderId, model, temperature, maxTokens);
  }

  /* ---------- get_llm_node ---------- */

  function GetLLMNode(t: Tables, nodeId: int): (r: Result<LLMNode>)
    ensures r.Success? <==> nodeId in t.llmNodes
    ensures r.Success? ==> r.value == t.llmNodes[nodeId]
    ensures r.Failure? ==> r.error == NodeNotFound
  {
    match Lookup(t.llmNodes, nodeId)
    case None => Failure(NodeNotFound)
    case Some(c) => Success(c)
  }

  /* ---------- update_llm_node ---------- */

  /** An empty patch is a read. Otherwise a supplied provider is checked
      first, before the configuration row is looked at, so a bad provider
      wins over a missing row. */
  function UpdateLLMNodeEffect(t: Tables, nodeId: int, p: LLMNodePatch): (r: Effect<LLMNode>)
    ensures r.result.Failure? ==> r.after == t
    ensures p.IsEmpty() ==> r.after == t
    ensures p.IsEmpty() ==> r.result == GetLLMNode(t, nodeId)
    ensures !p.IsEmpty() && p.llmProviderId.Some? && p.llmProviderId.value !in t.providers ==>
      r.result == Failure(LLMProviderNotFound)
    ensures !p.IsEmpty() && (p.llmProviderId.None? || p.llmProviderId.value in t.providers) && nodeId !in t.llmNodes ==>
      r.result == Failure(NodeNotFound)
    ensures !p.IsEmpty() && (p.llmProviderId.None? || p.llmProviderId.value in t.providers) && nodeId in t.llmNodes ==>
      (r.result.Success? <==> LLMNodeAccepted(p.ApplyTo(t.llmNodes[nodeId])))
    ensures !p.IsEmpty() && (p.llmProviderId.None? || p.llmProviderId.value in t.providers) && nodeId in t.llmNodes
            && !LLMNodeAccepted(p.ApplyTo(t.llmNodes[nodeId])) ==>
      r.result == Failure(ValueTooLong)
    ensures r.result.Failure? ==> r.result.error in {NodeNotFound, LLMProviderNotFound, ValueTooLong}
    ensures r.result.Success? ==>
      var c := t.llmNodes[nodeId];
      var v := r.result.value;
      && v.nodeId == c.nodeId
      && v.llmProviderId == p.llmProviderId.GetOr(c.llmProviderId)
      && v.temperature == p.temperature.GetOr(c.temperature)
      && v.maxTokens == p.maxTokens.GetOr(c.maxTokens)
      && (!p.IsEmpty() ==> CutTo(p.model.GetOr(c.model), ModelMax, v.model))
      && r.after == t.(llmNodes := t.llmNodes[nodeId := r.result.value])
    ensures Valid(t) ==> Valid(r.after)
  {
    if p.IsEmpty() then Effect(GetLLMNode(t, nodeId), t)
    else if p.llmProviderId.Some? && Lookup(t.providers, p.llmProviderId.value).None? then
      Effect(Failure(LLMProviderNotFound), t)
    else OrNotFound(UpdateLLMNodeBy(t, nodeId, p), NodeNotFound)
  }

  method UpdateLLMNode(db: Database, nodeId: int, p: LLMNodePatch) returns (r: Result<LLMNode>)
    requires Valid(db.State())
    modifies db
    ensures Valid(db.State())
    ensures Effect(r, db.State()) == UpdateLLMNodeEffect(old(db.State()), nodeId, p)
  {
    if p.IsEmpty() {
      return GetLLMNode(db.State(), nodeId);
    }
    if p.llmProviderId.Some? {
      var provider := Lookup(db.providers, p.llmProviderId.value);
      if provider.None? {
        return Failure(LLMProviderNotFound);
      }
    }
    ghost var before := db.State();
    assert UpdateLLMNodeEffect(before, nodeId, p) == OrNotFound(UpdateLLMNodeBy(before, nodeId, p), NodeNotFound);
    var updated := db.UpdateLLMNodeBy(nodeId, p);
    if updated.Failure? {
      return Failure(updated.error);
    }
    if updated.value.None? {
      return Failure(NodeNotFound);
    }
    r := Success(updated.value.value);
    assert Effect(r, db.State()) == UpdateLLMNodeEffect(before, nodeId, p);
  }

  /* ---------- delete_llm_node ---------- */

  function DeleteLLMNodeEffect(t: Tables, nodeId: int): (r: Effect<()>)
    ensures r.result.Success? <==> nodeId in t.llmNodes
    ensures r.result.Failure? ==> r.result.error == NodeNotFound && r.after == t
    ensures r.result.Success? ==> r.after == t.(llmNodes := t.llmNodes - {nodeId})
    ensures Valid(t) ==> Valid(r.after)
  {
    DeletedOr(DeleteLLMNodeBy(t, nodeId), NodeNotFound)
  }

  method DeleteLLMNode(db: Database, nodeId: int) returns (r: Result<()>)
    requires Valid(db.State())
    modifies db
    ensures Valid(db.State())
    ensures Effect(r, db.State()) == DeleteLLMNodeEffect(old(db.State()), nodeId)
  {
    ghost var before := db.State();
    var deleted := db.DeleteLLMNodeBy(nodeId);
    if !deleted.value {
      return Failure(NodeNotFound);
    }
    r := Success(());
    assert Effect(r, db.State()) == DeleteLLMNodeEffect(before, nodeId);
  }

  /* ---------- properties ---------- */

  /** A second create for the same node is refused once the first
      succeeded, whatever provider and parameters it names. */
  lemma SecondCreateLLMNodeFails(
    t: Tables, nodeId: int, providerId: int, model: string, temperature: Float, maxTokens: int,
    otherProviderId: int, otherModel: string, otherTemperature: Float, otherMaxTokens: int)
    requires CreateLLMNodeEffect(t, nodeId, providerId, model, temperature, maxTokens).result.Success?
    requires otherProviderId in t.providers
    ensures var a := CreateLLMNodeEffect(t, nodeId, providerId, model, temperature, maxTokens).after;
      CreateLLMNodeEffect(a, nodeId, otherProviderId, otherModel, otherTemperature, otherMaxTokens)
        == Effect(Failure(NodeConfigExists), a)
  {
  }

  /** A node of another type never gets an LLM configuration. */
  lemma WrongTypeNeverConfigured(
    t: Tables, nodeId: int, providerId: int, model: string, temperature: Float, maxTokens: int)
    requires nodeId in t.nodes && t.nodes[nodeId].nodeType != LLM
    ensures CreateLLMNodeEffect(t, nodeId, providerId, model, temperature, maxTokens)
      == Effect(Failure(NodeTypeMismatch), t)
  {
  }
}
