/** The two graph invariants hold for every store the usecases can build:
    starting from a store with no rows, any sequence of create, update and
    delete calls (successful or not) leaves every edge between nodes of
    its own workflow and every configuration row on a node of the matching
    type, together with the key, foreign-key and column constraints. */
module Integrity {
  import opened Rows
  import opened Schema
  import W = WorkflowUsecase
  import N = NodeUsecase
  import E = EdgeUsecase
  import I = InputNodeUsecase
  import O = OutputNodeUsecase
  import L = LLMNodeUsecase
  import X = ExecutionUsecase
  import P = LLMProviderUsecase

  /** One state-changing usecase call with its arguments; the clock reading
      is part of the execution calls. */
  datatype Call =
    | CreateWorkflow(ownerId: int, name: string)
    | UpdateWorkflow(workflowId: int, workflowPatch: WorkflowPatch)
    | DeleteWorkflow(workflowId: int)
    | CreateNode(workflowId: int, nodeType: NodeType, positionX: Float, positionY: Float)
    | UpdateNode(nodeId: int, nodePatch: NodePatch)
    | DeleteNode(nodeId: int)
    | CreateEdge(userId: int, workflowId: int, sourceNodeId: int, targetNodeId: int)
    | UpdateEdge(edgeId: int, userId: int, edgePatch: EdgePatch)
    | DeleteEdge(edgeId: int, userId: int)
    | CreateInputNode(nodeId: int, inputFormat: InputFormat)
    | UpdateInputNode(nodeId: int, inputPatch: InputNodePatch)
    | DeleteInputNode(nodeId: int)
    | CreateOutputNode(nodeId: int, outputFormat: OutputFormat)
    | UpdateOutputNode(nodeId: int, outputPatch: OutputNodePatch)
    | DeleteOutputNode(nodeId: int)
    | CreateLLMNode(nodeId: int, llmProviderId: int, model: string, temperature: Float, maxTokens: int)
    | UpdateLLMNode(nodeId: int, llmPatch: LLMNodePatch)
    | DeleteLLMNode(nodeId: int)
    | CreateExecution(workflowId: int, inputData: Option<Json>, status: Option<ExecutionStatus>, now: Timestamp)
    | UpdateExecution(executionId: int, executionPatch: ExecutionPatch, now: Timestamp)
    | DeleteExecution(executionId: int)
    | CreateProvider(
        userId: int, name: string, providerType: ProviderType,
        apiKey: string, baseUrl: Option<string>, isDefault: bool)
    | UpdateProvider(providerId: int, providerPatch: ProviderPatch)
    | DeleteProvider(providerId: int)

  /** The store after one call. */
  function Step(t: Tables, c: Call): Tables {
    match c
    case CreateWorkflow(ownerId, name) => W.CreateWorkflowEffect(t, ownerId, name).after
    case UpdateWorkflow(id, p) => W.UpdateWorkflowEffect(t, id, p).after
    case DeleteWorkflow(id) => W.DeleteWorkflowEffect(t, id).after
    case CreateNode(wf, ty, x, y) => N.CreateNodeEffect(t, wf, ty, x, y).after
    case UpdateNode(id, p) => N.UpdateNodeEffect(t, id, p).after
    case DeleteNode(id) => N.DeleteNodeEffect(t, id).after
    case CreateEdge(user, wf, src, dst) => E.CreateEdgeEffect(t, user, wf, src, dst).after
    case UpdateEdge(id, user, p) => E.UpdateEdgeEffect(t, id, user, p).after
    case DeleteEdge(id, user) => E.DeleteEdgeEffect(t, id, user).after
    case CreateInputNode(id, f) => I.CreateInputNodeEffect(t, id, f).after
    case UpdateInputNode(id, p) => I.UpdateInputNodeEffect(t, id, p).after
    case DeleteInputNode(id) => I.DeleteInputNodeEffect(t, id).after
    case CreateOutputNode(id, f) => O.CreateOutputNodeEffect(t, id, f).after
    case UpdateOutputNode(id, p) => O.UpdateOutputNodeEffect(t, id, p).after
    case DeleteOutputNode(id) => O.DeleteOutputNodeEffect(t, id).after
    case CreateLLMNode(id, prov, model, temp, maxTokens) => L.CreateLLMNodeEffect(t, id, prov, model, temp, maxTokens).after
    case UpdateLLMNode(id, p) => L.UpdateLLMNodeEffect(t, id, p).after
    case DeleteLLMNode(id) => L.DeleteLLMNodeEffect(t, id).after
    case CreateExecution(wf, input, status, now) => X.CreateExecutionEffect(t, wf, input, status, now).after
    case UpdateExecution(id, p, now) => X.UpdateExecutionEffect(t, id, p, now).after
    case DeleteExecution(id) => X.DeleteExecutionEffect(t, id).after
    case CreateProvider(user, name, ty, key, url, isDefault) =>
      P.CreateProviderEffect(t, user, name, ty, key, url, isDefault).after
    case UpdateProvider(id, p) => P.UpdateProviderEffect(t, id, p).after
    case DeleteProvider(id) => P.DeleteProviderEffect(t, id).after
  }

  /** The store after a sequence of calls, in order. */
  function Run(t: Tables, calls: seq<Call>): Tables
    decreases |calls|
  {
    if |calls| == 0 then t else Run(Step(t, calls[0]), calls[1..])
  }

  lemma StepKeepsValid(t: Tables, c: Call)
    requires Valid(t)
    ensures Valid(Step(t, c))
  {
  }

  lemma {:induction false} RunKeepsValid(t: Tables, calls: seq<Call>)
    requires Valid(t)
    ensures Valid(Run(t, calls))
    decreases |calls|
  {
    if |calls| > 0 {
      StepKeepsValid(t, calls[0]);
      RunKeepsValid(Step(t, calls[0]), calls[1..]);
    }
  }

  /** From a store holding only users, whatever the calls: every edge joins
      two nodes of its own workflow, and every configuration row sits on a
      node of the matching type. */
  lemma GraphInvariantsAlwaysHold(users: set<int>, calls: seq<Call>)
    ensures var t := Run(Empty(users), calls);
      && (forall k :: k in t.edges ==>
            && InWorkflow(t, t.edges[k].sourceNodeId, t.edges[k].workflowId)
            && InWorkflow(t, t.edges[k].targetNodeId, t.edges[k].workflowId))
      && (forall k :: k in t.inputNodes ==> HasType(t, k, INPUT))
      && (forall k :: k in t.llmNodes ==> HasType(t, k, LLM))
      && (forall k :: k in t.outputNodes ==> HasType(t, k, OUTPUT))
  {
    EmptyIsValid(users);
    RunKeepsValid(Empty(users), calls);
  }

  /** A complete walk-through: a user's workflow with an INPUT and an
      OUTPUT node, both configured, joined by an edge; an execution is
      created CREATED and then marked SUCCESS, which stamps its finish
      time. Every step succeeds. */
  lemma EndToEndScenario(u: int, name: string, now: Timestamp, later: Timestamp, input: Json, output: Json)
    requires |name| <= WorkflowNameMax
    ensures
      var w := W.CreateWorkflowEffect(Empty({u}), u, name);
      w.result.Success? &&
      var wf := w.result.value.id;
      var n1 := N.CreateNodeEffect(w.after, wf, INPUT, DefaultPosition, DefaultPosition);
      n1.result.Success? &&
      var n2 := N.CreateNodeEffect(n1.after, wf, OUTPUT, DefaultPosition, DefaultPosition);
      n2.result.Success? &&
      var c1 := I.CreateInputNodeEffect(n2.after, n1.result.value.id, DefaultInputFormat);
      c1.result.Success? &&
      var c2 := O.CreateOutputNodeEffect(c1.after, n2.result.value.id, DefaultOutputFormat);
      c2.result.Success? &&
      var e := E.CreateEdgeEffect(c2.after, u, wf, n1.result.value.id, n2.result.value.id);
      e.result.Success? &&
      var x := X.CreateExecutionEffect(e.after, wf, Some(input), None, now);
      x.result.Success? && x.result.value.status == CREATED && x.result.value.finishedAt.None? &&
      var done := X.UpdateExecutionEffect(x.after, x.result.value.id, ExecutionPatch(Some(SUCCESS), None, Some(output), None, None), later);
      && done.result.Success?
      && done.result.value.status == SUCCESS
      && done.result.value.finishedAt == Some(later)
      && done.result.value.outputData == Some(output)
      && Valid(done.after)
  {
    EmptyIsValid({u});
  }
}
