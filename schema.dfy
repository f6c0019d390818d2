/** The database as one value: every table, keyed by primary key, and the
    next value of each auto-increment id sequence. Defines what the
    constraints declared on the models guarantee (keys, foreign keys,
    VARCHAR widths), the two graph invariants the usecases maintain, the
    ON DELETE CASCADE / RESTRICT rules, and the repository contract
    (create, get_by, get_all, update_by, delete_by) as the usecases use it. */
module Schema {
  import opened Rows

  /** Next value of each table's id sequence. */
  datatype Sequences = Sequences(workflow: int, node: int, edge: int, provider: int, execution: int)

  datatype Tables = Tables(
    users: set<int>,
    workflows: map<int, Workflow>,
    nodes: map<int, Node>,
    edges: map<int, Edge>,
    providers: map<int, LLMProvider>,
    executions: map<int, Execution>,
    inputNodes: map<int, InputNode>,
    llmNodes: map<int, LLMNode>,
    outputNodes: map<int, OutputNode>,
    next: Sequences)

  /** What one store operation returns, and the tables after it. */
  datatype Effect<R> = Effect(result: Result<R>, after: Tables)

  /** A store holding only the given users: every sequence starts at 1. */
  function Empty(users: set<int>): Tables {
    Tables(users, map[], map[], map[], map[], map[], map[], map[], map[], Sequences(1, 1, 1, 1, 1))
  }

  /* ---------- Constraints the database enforces ----------
     Each constraint reads only the tables it is about, so that an
     operation leaves the constraints on the tables it does not touch
     literally unchanged. */

  predicate WorkflowKeys(m: map<int, Workflow>, next: int) {
    1 <= next && forall k :: k in m ==> m[k].id == k && 1 <= k < next
  }

  predicate NodeKeys(m: map<int, Node>, next: int) {
    1 <= next && forall k :: k in m ==> m[k].id == k && 1 <= k < next
  }

  predicate EdgeKeys(m: map<int, Edge>, next: int) {
    1 <= next && forall k :: k in m ==> m[k].id == k && 1 <= k < next
  }

  predicate ProviderKeys(m: map<int, LLMProvider>, next: int) {
    1 <= next && forall k :: k in m ==> m[k].id == k && 1 <= k < next
  }

  predicate ExecutionKeys(m: map<int, Execution>, next: int) {
    1 <= next && forall k :: k in m ==> m[k].id == k && 1 <= k < next
  }

  /** Configuration rows are keyed by their node's id. */
  predicate InputNodeKeys(m: map<int, InputNode>) {
    forall k :: k in m ==> m[k].nodeId == k
  }

  predicate LLMNodeKeys(m: map<int, LLMNode>) {
    forall k :: k in m ==> m[k].nodeId == k
  }

  predicate OutputNodeKeys(m: map<int, OutputNode>) {
    forall k :: k in m ==> m[k].nodeId == k
  }

  /** Each row is stored under its own primary key; generated ids are
      positive and below their sequence's next value. */
  predicate KeysAreIds(t: Tables) {
    && WorkflowKeys(t.workflows, t.next.workflow)
    && NodeKeys(t.nodes, t.next.node)
    && EdgeKeys(t.edges, t.next.edge)
    && ProviderKeys(t.providers, t.next.provider)
    && ExecutionKeys(t.executions, t.next.execution)
    && InputNodeKeys(t.inputNodes)
    && LLMNodeKeys(t.llmNodes)
    && OutputNodeKeys(t.outputNodes)
  }

  predicate WorkflowOwnersExist(users: set<int>, m: map<int, Workflow>) {
    forall k :: k in m ==> m[k].ownerId in users
  }

  predicate ProviderOwnersExist(users: set<int>, m: map<int, LLMProvider>) {
    forall k :: k in m ==> m[k].userId in users
  }

  predicate NodeParentsExist(workflows: map<int, Workflow>, m: map<int, Node>) {
    forall k :: k in m ==> m[k].workflowId in workflows
  }

  predicate EdgeParentsExist(workflows: map<int, Workflow>, nodes: map<int, Node>, m: map<int, Edge>) {
    forall k :: k in m ==>
      && m[k].workflowId in workflows
      && m[k].sourceNodeId in nodes
      && m[k].targetNodeId in nodes
  }

  predicate ExecutionParentsExist(workflows: map<int, Workflow>, m: map<int, Execution>) {
    forall k :: k in m ==> m[k].workflowId in workflows
  }

  /** Every configuration row sits on an existing node. */
  predicate ConfigNodesExist<R>(nodes: map<int, Node>, m: map<int, R>) {
    forall k :: k in m ==> k in nodes
  }

  predicate LLMProvidersExist(providers: map<int, LLMProvider>, m: map<int, LLMNode>) {
    forall k :: k in m ==> m[k].llmProviderId in providers
  }

  /** Every non-null foreign key names an existing row. */
  predicate ForeignKeysHold(t: Tables) {
    && WorkflowOwnersExist(t.users, t.workflows)
    && ProviderOwnersExist(t.users, t.providers)
    && NodeParentsExist(t.workflows, t.nodes)
    && EdgeParentsExist(t.workflows, t.nodes, t.edges)
    && ExecutionParentsExist(t.workflows, t.executions)
    && ConfigNodesExist(t.nodes, t.inputNodes)
    && ConfigNodesExist(t.nodes, t.llmNodes)
    && LLMProvidersExist(t.providers, t.llmNodes)
    && ConfigNodesExist(t.nodes, t.outputNodes)
  }

  predicate WorkflowFits(w: Workflow) {
    |w.name| <= WorkflowNameMax
  }

  predicate ProviderFits(p: LLMProvider) {
    |p.name| <= ProviderNameMax && (p.baseUrl.Some? ==> |p.baseUrl.value| <= BaseUrlMax)
  }

  predicate LLMNodeFits(c: LLMNode) {
    |c.model| <= ModelMax
  }

  /** PostgreSQL's assignment to a VARCHAR(n) column accepts a value whose
      characters past the n-th are all spaces (a short enough value has
      none) and refuses any other with a "value too long" error. */
  predicate VarcharAccepts(s: string, n: nat) {
    forall i :: n <= i < |s| ==> s[i] == ' '
  }

  /** `r` is `s` cut to at most n characters: its first min(|s|, n) characters. */
  predicate CutTo(s: string, n: nat, r: string) {
    r <= s && (|s| <= n ==> r == s) && (|s| > n ==> |r| == n)
  }

  /** What the column then holds: the accepted value cut to n characters,
      so only trailing spaces are ever lost. */
  function VarcharStored(s: string, n: nat): (r: string)
    requires VarcharAccepts(s, n)
    ensures CutTo(s, n, r) && |r| <= n
    ensures forall i :: |r| <= i < |s| ==> s[i] == ' '
  {
    if |s| <= n then s else s[..n]
  }

  predicate WorkflowAccepted(w: Workflow) {
    VarcharAccepts(w.name, WorkflowNameMax)
  }

  /** The workflow row as stored: the name cut to its width, nothing else changed. */
  function WorkflowStored(w: Workflow): (r: Workflow)
    requires WorkflowAccepted(w)
    ensures WorkflowFits(r) && r == w.(name := r.name)
    ensures WorkflowFits(w) ==> r == w
  {
    w.(name := VarcharStored(w.name, WorkflowNameMax))
  }

  predicate ProviderAccepted(p: LLMProvider) {
    VarcharAccepts(p.name, ProviderNameMax) && (p.baseUrl.Some? ==> VarcharAccepts(p.baseUrl.value, BaseUrlMax))
  }

  /** The provider row as stored: name and base URL cut to their widths. */
  function ProviderStored(p: LLMProvider): (r: LLMProvider)
    requires ProviderAccepted(p)
    ensures ProviderFits(r) && r == p.(name := r.name, baseUrl := r.baseUrl)
    ensures r.baseUrl.Some? == p.baseUrl.Some?
    ensures ProviderFits(p) ==> r == p
  {
    p.(name := VarcharStored(p.name, ProviderNameMax),
       baseUrl := if p.baseUrl.Some? then Some(VarcharStored(p.baseUrl.value, BaseUrlMax)) else None)
  }

  predicate LLMNodeAccepted(c: LLMNode) {
    VarcharAccepts(c.model, ModelMax)
  }

  /** The LLM configuration row as stored: the model cut to its width. */
  function LLMNodeStored(c: LLMNode): (r: LLMNode)
    requires LLMNodeAccepted(c)
    ensures LLMNodeFits(r) && r == c.(model := r.model)
    ensures LLMNodeFits(c) ==> r == c
  {
    c.(model := VarcharStored(c.model, ModelMax))
  }

  predicate WorkflowsFit(m: map<int, Workflow>) {
    forall k :: k in m ==> WorkflowFits(m[k])
  }

  predicate ProvidersFit(m: map<int, LLMProvider>) {
    forall k :: k in m ==> ProviderFits(m[k])
  }

  predicate LLMNodesFit(m: map<int, LLMNode>) {
    forall k :: k in m ==> LLMNodeFits(m[k])
  }

  /** Every stored string fits its VARCHAR width. */
  predicate ColumnsFit(t: Tables) {
    WorkflowsFit(t.workflows) && ProvidersFit(t.providers) && LLMNodesFit(t.llmNodes)
  }

  predicate Consistent(t: Tables) {
    KeysAreIds(t) && ForeignKeysHold(t) && ColumnsFit(t)
  }

  /* ---------- Invariants the usecases maintain ---------- */

  predicate InWorkflow(t: Tables, nodeId: int, workflowId: int) {
    nodeId in t.nodes && t.nodes[nodeId].workflowId == workflowId
  }

  predicate HasType(t: Tables, nodeId: int, nodeType: NodeType) {
    nodeId in t.nodes && t.nodes[nodeId].nodeType == nodeType
  }

  /** Both endpoints of every edge are nodes of the edge's own workflow. */
  predicate EdgesWithin(nodes: map<int, Node>, edges: map<int, Edge>) {
    forall k :: k in edges ==>
      && edges[k].sourceNodeId in nodes && nodes[edges[k].sourceNodeId].workflowId == edges[k].workflowId
      && edges[k].targetNodeId in nodes && nodes[edges[k].targetNodeId].workflowId == edges[k].workflowId
  }

  predicate EdgesWithinWorkflow(t: Tables) {
    EdgesWithin(t.nodes, t.edges)
  }

  /** Every row of configuration table `m` sits on a node of type `nodeType`. */
  predicate ConfigsOfType<R>(nodes: map<int, Node>, m: map<int, R>, nodeType: NodeType) {
    forall k :: k in m ==> k in nodes && nodes[k].nodeType == nodeType
  }

  /** Every configuration row belongs to a node of the matching type. */
  predicate ConfigsMatchType(t: Tables) {
    && ConfigsOfType(t.nodes, t.inputNodes, INPUT)
    && ConfigsOfType(t.nodes, t.llmNodes, LLM)
    && ConfigsOfType(t.nodes, t.outputNodes, OUTPUT)
  }

  predicate Valid(t: Tables) {
    Consistent(t) && EdgesWithinWorkflow(t) && ConfigsMatchType(t)
  }

  /** The lookup `get_by(id=workflowId, owner_id=userId)`. */
  predicate Owns(t: Tables, userId: int, workflowId: int) {
    workflowId in t.workflows && t.workflows[workflowId].ownerId == userId
  }

  /** The exact-match lookup `get_by` on a table's key. */
  function Lookup<R>(table: map<int, R>, key: int): Option<R> {
    if key in table then Some(table[key]) else None
  }

  /** `if not row: raise err` after an update_by. */
  function OrNotFound<R>(e: Effect<Option<R>>, err: Error): Effect<R> {
    match e.result
    case Failure(x) => Effect(Failure(x), e.after)
    case Success(None) => Effect(Failure(err), e.after)
    case Success(Some(row)) => Effect(Success(row), e.after)
  }

  /** `if not deleted: raise err` after a delete_by. */
  function DeletedOr(e: Effect<bool>, err: Error): Effect<()> {
    match e.result
    case Failure(x) => Effect(Failure(x), e.after)
    case Success(deleted) => Effect(if deleted then Success(()) else Failure(err), e.after)
  }

  /** Python truthiness of an optional id filter: the list usecases filter
      only when the id is given and non-zero. */
  predicate Truthy(id: Option<int>) {
    id.Some? && id.value != 0
  }

  /** The exact-match filter of `get_all`. */
  function Where<R>(table: map<int, R>, keep: R -> bool): map<int, R> {
    map k | k in table && keep(table[k]) :: table[k]
  }

  /* ---------- ON DELETE rules ---------- */

  /** The edges that have no node of `gone` as source or target. */
  function EdgesAvoiding(edges: map<int, Edge>, gone: set<int>): map<int, Edge> {
    map k | k in edges && edges[k].sourceNodeId !in gone && edges[k].targetNodeId !in gone :: edges[k]
  }

  /** The edges of workflows other than `w`. */
  function EdgesNotOf(edges: map<int, Edge>, w: int): map<int, Edge> {
    map k | k in edges && edges[k].workflowId != w :: edges[k]
  }

  /** The executions of workflows other than `w`. */
  function ExecutionsNotOf(executions: map<int, Execution>, w: int): map<int, Execution> {
    map k | k in executions && executions[k].workflowId != w :: executions[k]
  }

  /** Removes the nodes in `gone` together with what cascades from them:
      every edge that has one of them as source or as target, and their
      input, LLM and output configuration rows. */
  function DeleteNodes(t: Tables, gone: set<int>): (r: Tables)
    ensures r.nodes.Keys == t.nodes.Keys - gone
    ensures forall k :: k in r.nodes ==> r.nodes[k] == t.nodes[k]
    ensures forall k :: k in r.edges ==>
      k in t.edges && r.edges[k] == t.edges[k] && r.edges[k].sourceNodeId !in gone && r.edges[k].targetNodeId !in gone
    ensures forall k :: k in t.edges && t.edges[k].sourceNodeId !in gone && t.edges[k].targetNodeId !in gone ==> k in r.edges
    ensures r.inputNodes == t.inputNodes - gone
    ensures r.llmNodes == t.llmNodes - gone
    ensures r.outputNodes == t.outputNodes - gone
    ensures r.users == t.users && r.workflows == t.workflows && r.providers == t.providers
    ensures r.executions == t.executions && r.next == t.next
  {
    t.(nodes := t.nodes - gone,
       edges := EdgesAvoiding(t.edges, gone),
       inputNodes := t.inputNodes - gone,
       llmNodes := t.llmNodes - gone,
       outputNodes := t.outputNodes - gone)
  }

  /** The ids of the nodes of workflow `w`. */
  function NodesOf(t: Tables, w: int): set<int> {
    set k | k in t.nodes && t.nodes[k].workflowId == w
  }

  /** Removes workflow `w` together with what cascades from it: its nodes
      (and, from them, the edges that touch them and their configuration
      rows), its edges and its executions. */
  function DeleteWorkflow(t: Tables, w: int): (r: Tables)
    ensures r.workflows == t.workflows - {w}
    ensures r.nodes == t.nodes - NodesOf(t, w)
    ensures r.inputNodes == t.inputNodes - NodesOf(t, w)
    ensures r.llmNodes == t.llmNodes - NodesOf(t, w)
    ensures r.outputNodes == t.outputNodes - NodesOf(t, w)
    ensures forall k :: k in r.executions <==> k in t.executions && t.executions[k].workflowId != w
    ensures forall k :: k in r.executions ==> r.executions[k] == t.executions[k]
    ensures forall k :: k in r.edges <==>
      && k in t.edges && t.edges[k].workflowId != w
      && t.edges[k].sourceNodeId !in NodesOf(t, w) && t.edges[k].targetNodeId !in NodesOf(t, w)
    ensures forall k :: k in r.edges ==> r.edges[k] == t.edges[k]
    ensures r.users == t.users && r.providers == t.providers && r.next == t.next
  {
    var gone := NodesOf(t, w);
    t.(workflows := t.workflows - {w},
       nodes := t.nodes - gone,
       edges := EdgesAvoiding(EdgesNotOf(t.edges, w), gone),
       executions := ExecutionsNotOf(t.executions, w),
       inputNodes := t.inputNodes - gone,
       llmNodes := t.llmNodes - gone,
       outputNodes := t.outputNodes - gone)
  }

  /** Cascading from any set of nodes keeps every constraint and both
      graph invariants. */
  lemma DeleteNodesKeepsValid(t: Tables, gone: set<int>)
    requires Valid(t)
    ensures Valid(DeleteNodes(t, gone))
  {
    var r := DeleteNodes(t, gone);
    assert ForeignKeysHold(r) by {
      forall k | k in r.edges
        ensures r.edges[k].sourceNodeId in r.nodes && r.edges[k].targetNodeId in r.nodes
      {
        assert t.edges[k].sourceNodeId in t.nodes;
      }
    }
    assert EdgesWithinWorkflow(r) by {
      forall k | k in r.edges
        ensures InWorkflow(r, r.edges[k].sourceNodeId, r.edges[k].workflowId)
        ensures InWorkflow(r, r.edges[k].targetNodeId, r.edges[k].workflowId)
      {
        assert InWorkflow(t, t.edges[k].sourceNodeId, t.edges[k].workflowId);
        assert InWorkflow(t, t.edges[k].targetNodeId, t.edges[k].workflowId);
      }
    }
  }

  /** Deleting a workflow removes no edge of another workflow: under the
      graph invariant, such an edge touches no node of `w`. */
  lemma DeleteWorkflowKeepsOtherEdges(t: Tables, w: int, k: int)
    requires EdgesWithinWorkflow(t)
    requires k in t.edges && t.edges[k].workflowId != w
    ensures k in DeleteWorkflow(t, w).edges
  {
    assert InWorkflow(t, t.edges[k].sourceNodeId, t.edges[k].workflowId);
    assert InWorkflow(t, t.edges[k].targetNodeId, t.edges[k].workflowId);
  }

  lemma DeleteWorkflowKeepsForeignKeys(t: Tables, w: int)
    requires Valid(t)
    ensures ForeignKeysHold(DeleteWorkflow(t, w))
  {
    var r := DeleteWorkflow(t, w);
    forall k | k in r.nodes ensures r.nodes[k].workflowId in r.workflows {
      assert k !in NodesOf(t, w);
    }
    forall k | k in r.edges
      ensures r.edges[k].workflowId in r.workflows
      ensures r.edges[k].sourceNodeId in r.nodes && r.edges[k].targetNodeId in r.nodes
    {
      assert t.edges[k].sourceNodeId in t.nodes;
    }
  }

  lemma DeleteWorkflowKeepsEdgesWithin(t: Tables, w: int)
    requires EdgesWithinWorkflow(t)
    ensures EdgesWithinWorkflow(DeleteWorkflow(t, w))
  {
    var r := DeleteWorkflow(t, w);
    forall k | k in r.edges
      ensures InWorkflow(r, r.edges[k].sourceNodeId, r.edges[k].workflowId)
      ensures InWorkflow(r, r.edges[k].targetNodeId, r.edges[k].workflowId)
    {
      assert InWorkflow(t, t.edges[k].sourceNodeId, t.edges[k].workflowId);
      assert InWorkflow(t, t.edges[k].targetNodeId, t.edges[k].workflowId);
    }
  }

  /** Deleting a workflow keeps every constraint and both graph invariants. */
  lemma DeleteWorkflowKeepsValid(t: Tables, w: int)
    requires Valid(t)
    ensures Valid(DeleteWorkflow(t, w))
  {
    DeleteWorkflowKeepsForeignKeys(t, w);
    DeleteWorkflowKeepsEdgesWithin(t, w);
    var r := DeleteWorkflow(t, w);
    assert KeysAreIds(r);
    assert ColumnsFit(r);
    assert ConfigsMatchType(r);
  }

  /** True when some LLM configuration row references provider `id`. */
  predicate ProviderReferenced(t: Tables, id: int) {
    exists k :: k in t.llmNodes && t.llmNodes[k].llmProviderId == id
  }

  /* ---------- Repository contract: create ---------- */

  function InsertWorkflow(t: Tables, ownerId: int, name: string): Effect<Workflow> {
    var v := Workflow(t.next.workflow, ownerId, name);
    if !WorkflowAccepted(v) then Effect(Failure(ValueTooLong), t)
    else
      var w := WorkflowStored(v);
      Effect(Success(w), t.(workflows := t.workflows[w.id := w], next := t.next.(workflow := w.id + 1)))
  }

  function InsertNode(t: Tables, workflowId: int, nodeType: NodeType, positionX: Float, positionY: Float): Effect<Node> {
    var n := Node(t.next.node, workflowId, nodeType, positionX, positionY);
    Effect(Success(n), t.(nodes := t.nodes[n.id := n], next := t.next.(node := n.id + 1)))
  }

  function InsertEdge(t: Tables, workflowId: int, sourceNodeId: int, targetNodeId: int): Effect<Edge> {
    var e := Edge(t.next.edge, workflowId, sourceNodeId, targetNodeId);
    Effect(Success(e), t.(edges := t.edges[e.id := e], next := t.next.(edge := e.id + 1)))
  }

  function InsertProvider(
    t: Tables, userId: int, name: string, providerType: ProviderType,
    apiKey: string, baseUrl: Option<string>, isDefault: bool): Effect<LLMProvider>
  {
    var v := LLMProvider(t.next.provider, userId, name, providerType, apiKey, baseUrl, isDefault);
    if !ProviderAccepted(v) then Effect(Failure(ValueTooLong), t)
    else
      var p := ProviderStored(v);
      Effect(Success(p), t.(providers := t.providers[p.id := p], next := t.next.(provider := p.id + 1)))
  }

  /** `started_at` is the server's clock at insert; `finished_at`, output
      and error start out null. */
  function InsertExecution(
    t: Tables, workflowId: int, status: ExecutionStatus, inputData: Option<Json>, now: Timestamp): Effect<Execution>
  {
    var x := Execution(t.next.execution, workflowId, status, inputData, None, None, now, None);
    Effect(Success(x), t.(executions := t.executions[x.id := x], next := t.next.(execution := x.id + 1)))
  }

  function InsertInputNode(t: Tables, nodeId: int, format: InputFormat): Effect<InputNode> {
    var c := InputNode(nodeId, format);
    Effect(Success(c), t.(inputNodes := t.inputNodes[nodeId := c]))
  }

  function InsertLLMNode(
    t: Tables, nodeId: int, llmProviderId: int, model: string, temperature: Float, maxTokens: int): Effect<LLMNode>
  {
    var v := LLMNode(nodeId, llmProviderId, model, temperature, maxTokens);
    if !LLMNodeAccepted(v) then Effect(Failure(ValueTooLong), t)
    else
      var c := LLMNodeStored(v);
      Effect(Success(c), t.(llmNodes := t.llmNodes[nodeId := c]))
  }

  function InsertOutputNode(t: Tables, nodeId: int, format: OutputFormat): Effect<OutputNode> {
    var c := OutputNode(nodeId, format);
    Effect(Success(c), t.(outputNodes := t.outputNodes[nodeId := c]))
  }

  /* ---------- Repository contract: update_by (None when no row matched) ---------- */

  function UpdateWorkflowBy(t: Tables, id: int, p: WorkflowPatch): Effect<Option<Workflow>> {
    if id !in t.workflows then Effect(Success(None), t)
    else
      var v := p.ApplyTo(t.workflows[id]);
      if !WorkflowAccepted(v) then Effect(Failure(ValueTooLong), t)
      else
        var w := WorkflowStored(v);
        Effect(Success(Some(w)), t.(workflows := t.workflows[id := w]))
  }

  function UpdateNodeBy(t: Tables, id: int, p: NodePatch): Effect<Option<Node>> {
    if id !in t.nodes then Effect(Success(None), t)
    else
      var n := p.ApplyTo(t.nodes[id]);
      Effect(Success(Some(n)), t.(nodes := t.nodes[id := n]))
  }

  function UpdateEdgeBy(t: Tables, id: int, p: EdgePatch): Effect<Option<Edge>> {
    if id !in t.edges then Effect(Success(None), t)
    else
      var e := p.ApplyTo(t.edges[id]);
      Effect(Success(Some(e)), t.(edges := t.edges[id := e]))
  }

  function UpdateProviderBy(t: Tables, id: int, p: ProviderPatch): Effect<Option<LLMProvider>> {
    if id !in t.providers then Effect(Success(None), t)
    else
      var v := p.ApplyTo(t.providers[id]);
      if !ProviderAccepted(v) then Effect(Failure(ValueTooLong), t)
      else
        var w := ProviderStored(v);
        Effect(Success(Some(w)), t.(providers := t.providers[id := w]))
  }

  function UpdateExecutionBy(t: Tables, id: int, p: ExecutionPatch): Effect<Option<Execution>> {
    if id !in t.executions then Effect(Success(None), t)
    else
      var x := p.ApplyTo(t.executions[id]);
      Effect(Success(Some(x)), t.(executions := t.executions[id := x]))
  }

  function UpdateInputNodeBy(t: Tables, nodeId: int, p: InputNodePatch): Effect<Option<InputNode>> {
    if nodeId !in t.inputNodes then Effect(Success(None), t)
    else
      var c := p.ApplyTo(t.inputNodes[nodeId]);
      Effect(Success(Some(c)), t.(inputNodes := t.inputNodes[nodeId := c]))
  }

  function UpdateLLMNodeBy(t: Tables, nodeId: int, p: LLMNodePatch): Effect<Option<LLMNode>> {
    if nodeId !in t.llmNodes then Effect(Success(None), t)
    else
      var v := p.ApplyTo(t.llmNodes[nodeId]);
      if !LLMNodeAccepted(v) then Effect(Failure(ValueTooLong), t)
      else
        var c := LLMNodeStored(v);
        Effect(Success(Some(c)), t.(llmNodes := t.llmNodes[nodeId := c]))
  }

  function UpdateOutputNodeBy(t: Tables, nodeId: int, p: OutputNodePatch): Effect<Option<OutputNode>> {
    if nodeId !in t.outputNodes then Effect(Success(None), t)
    else
      var c := p.ApplyTo(t.outputNodes[nodeId]);
      Effect(Success(Some(c)), t.(outputNodes := t.outputNodes[nodeId := c]))
  }

  /* ---------- Repository contract: delete_by (true when a row was removed) ---------- */

  function DeleteWorkflowBy(t: Tables, id: int): Effect<bool> {
    if id in t.workflows then Effect(Success(true), DeleteWorkflow(t, id))
    else Effect(Success(false), t)
  }

  function DeleteNodeBy(t: Tables, id: int): Effect<bool> {
    if id in t.nodes then Effect(Success(true), DeleteNodes(t, {id}))
    else Effect(Success(false), t)
  }

  function DeleteEdgeBy(t: Tables, id: int): Effect<bool> {
    Effect(Success(id in t.edges), t.(edges := t.edges - {id}))
  }

  /** ON DELETE RESTRICT: a provider some LLM configuration still uses
      cannot be removed; the database raises instead. */
  function DeleteProviderBy(t: Tables, id: int): Effect<bool> {
    if ProviderReferenced(t, id) then Effect(Failure(ForeignKeyRestrict), t)
    else Effect(Success(id in t.providers), t.(providers := t.providers - {id}))
  }

  function DeleteExecutionBy(t: Tables, id: int): Effect<bool> {
    Effect(Success(id in t.executions), t.(executions := t.executions - {id}))
  }

  function DeleteInputNodeBy(t: Tables, nodeId: int): Effect<bool> {
    Effect(Success(nodeId in t.inputNodes), t.(inputNodes := t.inputNodes - {nodeId}))
  }

  function DeleteLLMNodeBy(t: Tables, nodeId: int): Effect<bool> {
    Effect(Success(nodeId in t.llmNodes), t.(llmNodes := t.llmNodes - {nodeId}))
  }

  function DeleteOutputNodeBy(t: Tables, nodeId: int): Effect<bool> {
    Effect(Success(nodeId in t.outputNodes), t.(outputNodes := t.outputNodes - {nodeId}))
  }

  /* ---------- Facts about the schema ---------- */

  /** Since configuration rows match their node's single type, a node has
      at most one configuration row of any kind. */
  lemma AtMostOneConfig(t: Tables, nodeId: int)
    requires ConfigsMatchType(t)
    ensures !(nodeId in t.inputNodes && nodeId in t.llmNodes)
    ensures !(nodeId in t.inputNodes && nodeId in t.outputNodes)
    ensures !(nodeId in t.llmNodes && nodeId in t.outputNodes)
  {
  }

  lemma EmptyIsValid(users: set<int>)
    ensures Valid(Empty(users))
  {
  }
}
