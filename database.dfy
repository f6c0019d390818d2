/** The database session the usecases share: one mutable field per table
    and the id sequences. The methods are the repository operations the
    usecases call (create, update_by, delete_by); each is proved to do
    exactly what the repository contract in `Schema` says. Reads (`get_by`,
    `get_all`) go through `State()`. */
module Store {
  import opened Rows
  import opened Schema

  class Database {
    var users: set<int>
    var workflows: map<int, Workflow>
    var nodes: map<int, Node>
    var edges: map<int, Edge>
    var providers: map<int, LLMProvider>
    var executions: map<int, Execution>
    var inputNodes: map<int, InputNode>
    var llmNodes: map<int, LLMNode>
    var outputNodes: map<int, OutputNode>
    var next: Sequences

    /** The tables as one value. */
    function State(): Tables
      reads this
    {
      Tables(users, workflows, nodes, edges, providers, executions, inputNodes, llmNodes, outputNodes, next)
    }

    /** A fresh database with the given registered users and no other rows. */
    constructor (users: set<int>)
      ensures State() == Empty(users)
      ensures Valid(State())
    {
      this.users := users;
      workflows, nodes, edges, providers, executions := map[], map[], map[], map[], map[];
      inputNodes, llmNodes, outputNodes := map[], map[], map[];
      next := Sequences(1, 1, 1, 1, 1);
    }

    /* ---------- create ---------- */

    method InsertWorkflow(ownerId: int, name: string) returns (r: Result<Workflow>)
      modifies this
      ensures Effect(r, State()) == Schema.InsertWorkflow(old(State()), ownerId, name)
    {
      var v := Workflow(next.workflow, ownerId, name);
      if !WorkflowAccepted(v) {
        return Failure(ValueTooLong);
      }
      var w := WorkflowStored(v);
      workflows := workflows[w.id := w];
      next := next.(workflow := w.id + 1);
      r := Success(w);
    }

    method InsertNode(workflowId: int, nodeType: NodeType, positionX: Float, positionY: Float) returns (r: Result<Node>)
      modifies this
      ensures Effect(r, State()) == Schema.InsertNode(old(State()), workflowId, nodeType, positionX, positionY)
    {
      var n := Node(next.node, workflowId, nodeType, positionX, positionY);
      nodes := nodes[n.id := n];
      next := next.(node := n.id + 1);
      r := Success(n);
    }

    method InsertEdge(workflowId: int, sourceNodeId: int, targetNodeId: int) returns (r: Result<Edge>)
      modifies this
      ensures Effect(r, State()) == Schema.InsertEdge(old(State()), workflowId, sourceNodeId, targetNodeId)
    {
      var e := Edge(next.edge, workflowId, sourceNodeId, targetNodeId);
      edges := edges[e.id := e];
      next := next.(edge := e.id + 1);
      r := Success(e);
    }

    method InsertProvider(
      userId: int, name: string, providerType: ProviderType,
      apiKey: string, baseUrl: Option<string>, isDefault: bool) returns (r: Result<LLMProvider>)
      modifies this
      ensures Effect(r, State()) == Schema.InsertProvider(old(State()), userId, name, providerType, apiKey, baseUrl, isDefault)
    {
      var v := LLMProvider(next.provider, userId, name, providerType, apiKey, baseUrl, isDefault);
      if !ProviderAccepted(v) {
        return Failure(ValueTooLong);
      }
      var p := ProviderStored(v);
      providers := providers[p.id := p];
      next := next.(provider := p.id + 1);
      r := Success(p);
    }

    method InsertExecution(workflowId: int, status: ExecutionStatus, inputData: Option<Json>, now: Timestamp)
      returns (r: Result<Execution>)
      modifies this
      ensures Effect(r, State()) == Schema.InsertExecution(old(State()), workflowId, status, inputData, now)
    {
      var x := Execution(next.execution, workflowId, status, inputData, None, None, now, None);
      executions := executions[x.id := x];
      next := next.(execution := x.id + 1);
      r := Success(x);
    }

    method InsertInputNode(nodeId: int, format: InputFormat) returns (r: Result<InputNode>)
      modifies this
      ensures Effect(r, State()) == Schema.InsertInputNode(old(State()), nodeId, format)
    {
      var c := InputNode(nodeId, format);
      inputNodes := inputNodes[nodeId := c];
      r := Success(c);
    }

    method InsertLLMNode(nodeId: int, llmProviderId: int, model: string, temperature: Float, maxTokens: int)
      returns (r: Result<LLMNode>)
      modifies this
      ensures Effect(r, State()) == Schema.InsertLLMNode(old(State()), nodeId, llmProviderId, model, temperature, maxTokens)
    {
      var v := LLMNode(nodeId, llmProviderId, model, temperature, maxTokens);
      if !LLMNodeAccepted(v) {
        return Failure(ValueTooLong);
      }
      var c := LLMNodeStored(v);
      llmNodes := llmNodes[nodeId := c];
      r := Success(c);
    }

    method InsertOutputNode(nodeId: int, format: OutputFormat) returns (r: Result<OutputNode>)
      modifies this
      ensures Effect(r, State()) == Schema.InsertOutputNode(old(State()), nodeId, format)
    {
      var c := OutputNode(nodeId, format);
      outputNodes := outputNodes[nodeId := c];
      r := Success(c);
    }

    /* ---------- update_by ---------- */

    method UpdateWorkflowBy(id: int, p: WorkflowPatch) returns (r: Result<Option<Workflow>>)
      modifies this
      ensures Effect(r, State()) == Schema.UpdateWorkflowBy(old(State()), id, p)
    {
      if id !in workflows {
        return Success(None);
      }
      var v := p.ApplyTo(workflows[id]);
      if !WorkflowAccepted(v) {
        return Failure(ValueTooLong);
      }
      var w := WorkflowStored(v);
      workflows := workflows[id := w];
      r := Success(Some(w));
    }

    method UpdateNodeBy(id: int, p: NodePatch) returns (r: Result<Option<Node>>)
      modifies this
      ensures Effect(r, State()) == Schema.UpdateNodeBy(old(State()), id, p)
    {
      if id !in nodes {
        return Success(None);
      }
      var n := p.ApplyTo(nodes[id]);
      nodes := nodes[id := n];
      r := Success(Some(n));
    }

    method UpdateEdgeBy(id: int, p: EdgePatch) returns (r: Result<Option<Edge>>)
      modifies this
      ensures Effect(r, State()) == Schema.UpdateEdgeBy(old(State()), id, p)
    {
      if id !in edges {
        return Success(None);
      }
      var e := p.ApplyTo(edges[id]);
      edges := edges[id := e];
      r := Success(Some(e));
    }

    method UpdateProviderBy(id: int, p: ProviderPatch) returns (r: Result<Option<LLMProvider>>)
      modifies this
      ensures Effect(r, State()) == Schema.UpdateProviderBy(old(State()), id, p)
    {
      if id !in providers {
        return Success(None);
      }
      var v := p.ApplyTo(providers[id]);
      if !ProviderAccepted(v) {
        return Failure(ValueTooLong);
      }
      var w := ProviderStored(v);
      providers := providers[id := w];
      r := Success(Some(w));
    }

    method UpdateExecutionBy(id: int, p: ExecutionPatch) returns (r: Result<Option<Execution>>)
      modifies this
      ensures Effect(r, State()) == Schema.UpdateExecutionBy(old(State()), id, p)
    {
      if id !in executions {
        return Success(None);
      }
      var x := p.ApplyTo(executions[id]);
      executions := executions[id := x];
      r := Success(Some(x));
    }

    method UpdateInputNodeBy(nodeId: int, p: InputNodePatch) returns (r: Result<Option<InputNode>>)
      modifies this
      ensures Effect(r, State()) == Schema.UpdateInputNodeBy(old(State()), nodeId, p)
    {
      if nodeId !in inputNodes {
        return Success(None);
      }
      var c := p.ApplyTo(inputNodes[nodeId]);
      inputNodes := inputNodes[nodeId := c];
      r := Success(Some(c));
    }

    method UpdateLLMNodeBy(nodeId: int, p: LLMNodePatch) returns (r: Result<Option<LLMNode>>)
      modifies this
      ensures Effect(r, State()) == Schema.UpdateLLMNodeBy(old(State()), nodeId, p)
    {
      if nodeId !in llmNodes {
        return Success(None);
      }
      var v := p.ApplyTo(llmNodes[nodeId]);
      if !LLMNodeAccepted(v) {
        return Failure(ValueTooLong);
      }
      var c := LLMNodeStored(v);
      llmNodes := llmNodes[nodeId := c];
      r := Success(Some(c));
    }

    method UpdateOutputNodeBy(nodeId: int, p: OutputNodePatch) returns (r: Result<Option<OutputNode>>)
      modifies this
      ensures Effect(r, State()) == Schema.UpdateOutputNodeBy(old(State()), nodeId, p)
    {
      if nodeId !in outputNodes {
        return Success(None);
      }
      var c := p.ApplyTo(outputNodes[nodeId]);
      outputNodes := outputNodes[nodeId := c];
      r := Success(Some(c));
    }

    /* ---------- delete_by ---------- */

    /** Removes the workflow and, by ON DELETE CASCADE, its executions, its
        edges, its nodes, the edges touching those nodes and their
        configuration rows. */
    method DeleteWorkflowBy(id: int) returns (r: Result<bool>)
      modifies this
      ensures Effect(r, State()) == Schema.DeleteWorkflowBy(old(State()), id)
    {
      if id !in workflows {
        return Success(false);
      }
      var gone := NodesOf(State(), id);
      workflows := workflows - {id};
      nodes := nodes - gone;
      edges := EdgesAvoiding(EdgesNotOf(edges, id), gone);
      executions := ExecutionsNotOf(executions, id);
      inputNodes := inputNodes - gone;
      llmNodes := llmNodes - gone;
      outputNodes := outputNodes - gone;
      r := Success(true);
    }

    /** Removes the node and, by ON DELETE CASCADE, every edge that has it as
        source or target and its configuration rows. */
    method DeleteNodeBy(id: int) returns (r: Result<bool>)
      modifies this
      ensures Effect(r, State()) == Schema.DeleteNodeBy(old(State()), id)
    {
      if id !in nodes {
        return Success(false);
      }
      nodes := nodes - {id};
      edges := EdgesAvoiding(edges, {id});
      inputNodes := inputNodes - {id};
      llmNodes := llmNodes - {id};
      outputNodes := outputNodes - {id};
      r := Success(true);
    }

    method DeleteEdgeBy(id: int) returns (r: Result<bool>)
      modifies this
      ensures Effect(r, State()) == Schema.DeleteEdgeBy(old(State()), id)
    {
      r := Success(id in edges);
      edges := edges - {id};
    }

    /** ON DELETE RESTRICT: the database refuses while an LLM configuration
        row still references the provider. */
    method DeleteProviderBy(id: int) returns (r: Result<bool>)
      modifies this
      ensures Effect(r, State()) == Schema.DeleteProviderBy(old(State()), id)
    {
      if exists k :: k in llmNodes && llmNodes[k].llmProviderId == id {
        return Failure(ForeignKeyRestrict);
      }
      r := Success(id in providers);
      providers := providers - {id};
    }

    method DeleteExecutionBy(id: int) returns (r: Result<bool>)
      modifies this
      ensures Effect(r, State()) == Schema.DeleteExecutionBy(old(State()), id)
    {
      r := Success(id in executions);
      executions := executions - {id};
    }

    method DeleteInputNodeBy(nodeId: int) returns (r: Result<bool>)
      modifies this
      ensures Effect(r, State()) == Schema.DeleteInputNodeBy(old(State()), nodeId)
    {
      r := Success(nodeId in inputNodes);
      inputNodes := inputNodes - {nodeId};
    }

    method DeleteLLMNodeBy(nodeId: int) returns (r: Result<bool>)
      modifies this
      ensures Effect(r, State()) == Schema.DeleteLLMNodeBy(old(State()), nodeId)
    {
      r := Success(nodeId in llmNodes);
      llmNodes := llmNodes - {nodeId};
    }

    method DeleteOutputNodeBy(nodeId: int) returns (r: Result<bool>)
      modifies this
      ensures Effect(r, State()) == Schema.DeleteOutputNodeBy(old(State()), nodeId)
    {
      r := Success(nodeId in outputNodes);
      outputNodes := outputNodes - {nodeId};
    }
  }
}
