/** Row shapes, enums, column defaults, update patches and the error kinds
    of the workflow store. Floats (canvas positions, sampling temperature)
    are kept as opaque values and never reasoned about numerically;
    timestamps come from an abstract clock. */
module Rows {

  datatype Option<T> = None | Some(value: T) {
    function GetOr(default: T): T {
      if Some? then value else default
    }
  }

  /** The exceptions the usecases raise, plus the two the database itself
      raises and the usecases let through: a VARCHAR value that is too
      long, and a delete blocked by an ON DELETE RESTRICT reference. */
  datatype Error =
    | UserNotFound
    | WorkflowNotFound
    | NodeNotFound
    | EdgeNotFound
    | ExecutionNotFound
    | LLMProviderNotFound
    | NodeConfigExists
    | NodeTypeMismatch
    | EdgeNodeMismatch
    | ValueTooLong
    | ForeignKeyRestrict

  datatype Result<T> = Success(value: T) | Failure(error: Error)

  /** Opaque float column value. */
  type Float = real
  /** Abstract clock reading. */
  type Timestamp = int
  /** A JSONB document, kept as its text. */
  datatype Json = Json(text: string)

  datatype NodeType = INPUT | LLM | OUTPUT
  datatype InputFormat = InputText
  datatype OutputFormat = OutputText
  datatype ExecutionStatus = CREATED | RUNNING | SUCCESS | FAILED
  datatype ProviderType = OLLAMA

  /** SUCCESS and FAILED are the statuses that stamp `finished_at`. */
  predicate IsTerminal(s: ExecutionStatus) {
    s == SUCCESS || s == FAILED
  }

  // Column defaults
  const DefaultPosition: Float := 0.0
  const DefaultTemperature: Float := 0.7
  const DefaultMaxTokens: int := 1024
  const DefaultInputFormat: InputFormat := InputText
  const DefaultOutputFormat: OutputFormat := OutputText
  const DefaultStatus: ExecutionStatus := CREATED

  // VARCHAR widths
  const WorkflowNameMax: nat := 255
  const ProviderNameMax: nat := 128
  const BaseUrlMax: nat := 512
  const ModelMax: nat := 128

  datatype Workflow = Workflow(id: int, ownerId: int, name: string)

  datatype Node = Node(id: int, workflowId: int, nodeType: NodeType, positionX: Float, positionY: Float)

  datatype Edge = Edge(id: int, workflowId: int, sourceNodeId: int, targetNodeId: int)

  datatype InputNode = InputNode(nodeId: int, format: InputFormat)

  datatype LLMNode = LLMNode(nodeId: int, llmProviderId: int, model: string, temperature: Float, maxTokens: int)

  datatype OutputNode = OutputNode(nodeId: int, format: OutputFormat)

  datatype LLMProvider = LLMProvider(
    id: int, userId: int, name: string, providerType: ProviderType,
    apiKey: string, baseUrl: Option<string>, isDefault: bool)

  datatype Execution = Execution(
    id: int, workflowId: int, status: ExecutionStatus,
    inputData: Option<Json>, outputData: Option<Json>, error: Option<string>,
    startedAt: Timestamp, finishedAt: Option<Timestamp>)

  /** A non-null column after an update: the supplied value when one was
      supplied, otherwise the stored one. */
  predicate Written<T(==)>(supplied: Option<T>, stored: T, result: T) {
    (supplied.Some? ==> result == supplied.value) && (supplied.None? ==> result == stored)
  }

  /** A nullable column after an update: the supplied value when one was
      supplied, otherwise the stored one (a supplied None is dropped, so the
      column is never cleared). */
  predicate WrittenNullable<T(==)>(supplied: Option<T>, stored: Option<T>, result: Option<T>) {
    (supplied.Some? ==> result == supplied) && (supplied.None? ==> result == stored)
  }

  /* Update patches. A field holding None was not supplied (or was supplied
     as None, which the usecases drop), so a column can be overwritten but
     never cleared. Each patch holds the fields that the routers and tests
     pass to the update usecase (for executions: status, data, error and
     finished_at, the fields the finish-time stamping works on), so primary
     keys and parent references are in none. */

  datatype WorkflowPatch = WorkflowPatch(name: Option<string>) {
    predicate IsEmpty() { name.None? }
    function ApplyTo(w: Workflow): (r: Workflow)
      ensures r.id == w.id && r.ownerId == w.ownerId
      ensures Written(name, w.name, r.name)
      ensures IsEmpty() ==> r == w
    {
      w.(name := name.GetOr(w.name))
    }
  }

  /** Node updates carry the canvas position only: type and workflow are fixed. */
  datatype NodePatch = NodePatch(positionX: Option<Float>, positionY: Option<Float>) {
    predicate IsEmpty() { positionX.None? && positionY.None? }
    function ApplyTo(n: Node): (r: Node)
      ensures r.id == n.id && r.workflowId == n.workflowId && r.nodeType == n.nodeType
      ensures Written(positionX, n.positionX, r.positionX)
      ensures Written(positionY, n.positionY, r.positionY)
      ensures IsEmpty() ==> r == n
    {
      n.(positionX := positionX.GetOr(n.positionX), positionY := positionY.GetOr(n.positionY))
    }
  }

  datatype EdgePatch = EdgePatch(sourceNodeId: Option<int>, targetNodeId: Option<int>) {
    predicate IsEmpty() { sourceNodeId.None? && targetNodeId.None? }
    function ApplyTo(e: Edge): (r: Edge)
      ensures r.id == e.id && r.workflowId == e.workflowId
      ensures Written(sourceNodeId, e.sourceNodeId, r.sourceNodeId)
      ensures Written(targetNodeId, e.targetNodeId, r.targetNodeId)
      ensures IsEmpty() ==> r == e
    {
      e.(sourceNodeId := sourceNodeId.GetOr(e.sourceNodeId),
         targetNodeId := targetNodeId.GetOr(e.targetNodeId))
    }
  }

  datatype InputNodePatch = InputNodePatch(format: Option<InputFormat>) {
    predicate IsEmpty() { format.None? }
    function ApplyTo(c: InputNode): (r: InputNode)
      ensures r.nodeId == c.nodeId
      ensures Written(format, c.format, r.format)
      ensures IsEmpty() ==> r == c
    {
      c.(format := format.GetOr(c.format))
    }
  }

  datatype OutputNodePatch = OutputNodePatch(format: Option<OutputFormat>) {
    predicate IsEmpty() { format.None? }
    function ApplyTo(c: OutputNode): (r: OutputNode)
      ensures r.nodeId == c.nodeId
      ensures Written(format, c.format, r.format)
      ensures IsEmpty() ==> r == c
    {
      c.(format := format.GetOr(c.format))
    }
  }

  datatype LLMNodePatch = LLMNodePatch(
    llmProviderId: Option<int>, model: Option<string>,
    temperature: Option<Float>, maxTokens: Option<int>)
  {
    predicate IsEmpty() {
      llmProviderId.None? && model.None? && temperature.None? && maxTokens.None?
    }
    function ApplyTo(c: LLMNode): (r: LLMNode)
      ensures r.nodeId == c.nodeId
      ensures Written(llmProviderId, c.llmProviderId, r.llmProviderId)
      ensures Written(model, c.model, r.model)
      ensures Written(temperature, c.temperature, r.temperature)
      ensures Written(maxTokens, c.maxTokens, r.maxTokens)
      ensures IsEmpty() ==> r == c
    {
      c.(llmProviderId := llmProviderId.GetOr(c.llmProviderId),
         model := model.GetOr(c.model),
         temperature := temperature.GetOr(c.temperature),
         maxTokens := maxTokens.GetOr(c.maxTokens))
    }
  }

  datatype ProviderPatch = ProviderPatch(
    name: Option<string>, providerType: Option<ProviderType>, apiKey: Option<string>,
    baseUrl: Option<string>, isDefault: Option<bool>)
  {
    predicate IsEmpty() {
      name.None? && providerType.None? && apiKey.None? && baseUrl.None? && isDefault.None?
    }
    function ApplyTo(p: LLMProvider): (r: LLMProvider)
      ensures r.id == p.id && r.userId == p.userId
      ensures Written(name, p.name, r.name) && Written(providerType, p.providerType, r.providerType)
      ensures Written(apiKey, p.apiKey, r.apiKey) && Written(isDefault, p.isDefault, r.isDefault)
      ensures WrittenNullable(baseUrl, p.baseUrl, r.baseUrl)
      ensures IsEmpty() ==> r == p
    {
      p.(name := name.GetOr(p.name),
         providerType := providerType.GetOr(p.providerType),
         apiKey := apiKey.GetOr(p.apiKey),
         baseUrl := if baseUrl.Some? then baseUrl else p.baseUrl,
         isDefault := isDefault.GetOr(p.isDefault))
    }
  }

  datatype ExecutionPatch = ExecutionPatch(
    status: Option<ExecutionStatus>, inputData: Option<Json>, outputData: Option<Json>,
    error: Option<string>, finishedAt: Option<Timestamp>)
  {
    predicate IsEmpty() {
      status.None? && inputData.None? && outputData.None? && error.None? && finishedAt.None?
    }
    function ApplyTo(x: Execution): (r: Execution)
      ensures r.id == x.id && r.workflowId == x.workflowId && r.startedAt == x.startedAt
      ensures Written(status, x.status, r.status)
      ensures WrittenNullable(inputData, x.inputData, r.inputData)
      ensures WrittenNullable(outputData, x.outputData, r.outputData)
      ensures WrittenNullable(error, x.error, r.error)
      ensures WrittenNullable(finishedAt, x.finishedAt, r.finishedAt)
      ensures IsEmpty() ==> r == x
    {
      x.(status := status.GetOr(x.status),
         inputData := if inputData.Some? then inputData else x.inputData,
         outputData := if outputData.Some? then outputData else x.outputData,
         error := if error.Some? then error else x.error,
         finishedAt := if finishedAt.Some? then finishedAt else x.finishedAt)
    }
  }
}
