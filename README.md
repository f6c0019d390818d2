# Workflow-graph integrity layer of graph-ai, in Dafny

graph-ai stores AI workflows as graphs, in these tables:

- workflows, owned by users;
- nodes of type INPUT, LLM or OUTPUT;
- directed edges between nodes;
- one configuration row per node, in a table for its type;
- LLM providers;
- executions, which record runs of a workflow.

The usecase layer (`backend/usecases/`) sits on top of these tables. Each operation runs a short, fixed sequence of existence, ownership and type checks, then performs at most one insert, update or delete. This project models that layer and the table schema it relies on (`backend/models/`), and proves what the checks guarantee.

## Files

- `rows.dfy` (module `Rows`) holds:
  - the row shapes and enums;
  - the column defaults and VARCHAR widths;
  - the error kinds;
  - the update patches. A patch field holding `None` was not supplied, so it is dropped as the usecases drop it.
- `schema.dfy` (module `Schema`) defines `Tables`: every table as a `map` from primary key to row, plus the next value of each id sequence. It also holds:
  - the constraints the database enforces: keys, foreign keys and column widths;
  - the two graph invariants;
  - the ON DELETE CASCADE and RESTRICT rules;
  - the repository contract as the usecases use it. This covers `create`, `get_by` (`Lookup`), `get_all` (`Where`), `update_by` (returns `None` when no row matched) and `delete_by` (returns whether a row was removed).
- `database.dfy` (module `Store`) has `class Database`, with one mutable field per table. Its methods are the repository writes. Each is proved to leave exactly the state, and return exactly the result, that the contract in `Schema` gives.
- There is one module per usecase file:
  - `workflow_usecase.dfy`
  - `node_usecase.dfy`
  - `edge_usecase.dfy`
  - `input_node_usecase.dfy`
  - `output_node_usecase.dfy`
  - `llm_node_usecase.dfy`
  - `execution_usecase.dfy`
  - `llm_provider_usecase.dfy`

  Each operation appears twice:
  - as a pure specification. Writes are `...Effect` functions that return the result and the tables after the call; reads are plain functions over the tables.
  - as a method that takes the `Database` and performs the same checks in the same order as the Python code. The method is proved equal to its specification and to preserve `Valid`.
- `integrity.dfy` (module `Integrity`) folds any sequence of calls over the tables and proves the two graph invariants for every reachable store:
  1. every edge joins two nodes of its own workflow;
  2. every configuration row sits on a node of the matching type.

Errors are the `Error` datatype. Besides the exceptions the usecases raise, it has two errors that the database itself raises and the usecases let through:
- `ValueTooLong`: a value longer than its VARCHAR(255/128/512) column whose excess is not all spaces. PostgreSQL cuts a longer value whose excess is all spaces to the column width and stores it without an error, and the model does the same (`Schema.VarcharAccepts`, `Schema.VarcharStored`);
- `ForeignKeyRestrict`: a provider delete blocked by ON DELETE RESTRICT.

Float columns (canvas positions, temperature) are opaque values. The clock is a `now` parameter.

Behaviour of the code worth noting, which the model keeps:
- `update_execution` stamps `finished_at` when the status supplied in the update is SUCCESS or FAILED. It does not look at the status the row ends up with. An update that supplies no status never stamps, even on a run that is already SUCCESS.
- Re-sending a terminal status stamps again, unless `finished_at` is supplied.
- A non-terminal status does not clear an existing `finished_at`.
- `create_execution` takes an optional status, which overrides the CREATED default.
- Neither `create_execution` nor `create_node` checks the caller's ownership of the workflow.

## Model

| member | source | states |
|---|---|---|
| `Rows.NodePatch.ApplyTo` | backend/schemas/node.py:22-29 | a node update can only move the node: each position is the supplied value or else the stored one; id, workflow and type stay as they were; an empty patch changes nothing |
| `Rows.EdgePatch.ApplyTo` | backend/usecases/edge.py:162-163 | each endpoint is the supplied value or else the stored one; id and workflow are kept; an empty patch is the identity |
| `Rows.LLMNodePatch.ApplyTo` | backend/usecases/llm_node.py:118-133 | provider, model, temperature and max_tokens are each the supplied value or else the stored one; the node id is kept; an empty patch is the identity |
| `Rows.ExecutionPatch.ApplyTo` | backend/usecases/execution.py:117-128 | status, input, output, error and `finished_at` are each the supplied value or else the stored one (a nullable column is never cleared); id, workflow and `started_at` are kept, since the patch carries no such fields (it holds the fields the stamping at backend/usecases/execution.py:121-123 and the update in backend/tests/test_api/test_execution.py:113-126 use) |
| `Schema.DeleteNodes` | backend/models/node.py:42-46 | deleting nodes removes exactly those nodes, every edge with one of them as source or target, and their input, LLM and output rows; all other rows stay |
| `Schema.DeleteWorkflow` | backend/models/node.py:14-18 | deleting a workflow (ON DELETE CASCADE on nodes here, and on edges and executions at backend/models/edge.py:13-17 and backend/models/execution.py:17-21) removes the workflow, its nodes, its executions, its edges and every edge touching its nodes, and the config rows of its nodes; users and providers stay |
| `Schema.DeleteNodesKeepsValid` | backend/models/edge.py:18-27 | the node cascade keeps every key, foreign-key and width constraint and both graph invariants |
| `Schema.DeleteWorkflowKeepsOtherEdges` | backend/models/node.py:14-18 | given the edge invariant, an edge of another workflow survives a workflow delete |
| `Schema.DeleteWorkflowKeepsForeignKeys` | backend/models/execution.py:17-21 | after the workflow cascade no row references a removed workflow or node |
| `Schema.DeleteWorkflowKeepsEdgesWithin` | backend/models/edge.py:13-27 | after the workflow cascade every remaining edge still joins nodes of its own workflow |
| `Schema.DeleteWorkflowKeepsValid` | backend/models/node.py:14-18 | the workflow cascade keeps all constraints and both graph invariants |
| `Schema.AtMostOneConfig` | backend/models/node.py:42-46 | a node carries at most one configuration row of any kind |
| `Schema.EmptyIsValid` | backend/models/base.py:29 | a store with only users satisfies every constraint; id sequences start at 1 |
| `Schema.VarcharStored` | backend/models/workflow.py:19-23 | the value a VARCHAR(n) column holds after PostgreSQL's assignment: the supplied value cut to its first n characters, of which only spaces are dropped; it fits the width and equals the supplied value when that already fits |
| `Store.Database.constructor` | backend/models/base.py:29 | a new database holds the given users and no other rows |
| `Store.Database.InsertWorkflow` | backend/models/workflow.py:13-23 | inserts a workflow under a fresh id, with a name over 255 characters cut to 255 when the excess is all spaces; otherwise raises ValueTooLong and writes nothing |
| `Store.Database.InsertNode` | backend/models/node.py:9-34 | inserts a node under the next id of its sequence |
| `Store.Database.InsertEdge` | backend/models/edge.py:8-27 | inserts an edge under the next id of its sequence |
| `Store.Database.InsertProvider` | backend/models/llm_provider.py:14-43 | inserts a provider with name and base URL cut to 128 and 512 characters when the excess is all spaces; raises ValueTooLong and writes nothing when either excess holds another character |
| `Store.Database.InsertExecution` | backend/models/execution.py:12-42 | inserts an execution with `started_at` = now and no output, error or finish time |
| `Store.Database.InsertInputNode` | backend/models/node.py:37-52 | stores the input row under its node's id |
| `Store.Database.InsertLLMNode` | backend/models/node.py:55-85 | stores the LLM row under its node's id with the model cut to 128 characters when the excess is all spaces; otherwise raises ValueTooLong and writes nothing |
| `Store.Database.InsertOutputNode` | backend/models/node.py:88-103 | stores the output row under its node's id |
| `Store.Database.UpdateWorkflowBy` | backend/usecases/workflow.py:102-106 | update_by returns None for a missing id; else writes the patched row with the name cut to 255 characters when the excess is all spaces, or raises ValueTooLong and writes nothing |
| `Store.Database.UpdateNodeBy` | backend/usecases/node.py:115-119 | update_by returns None for a missing id, else writes the patched row |
| `Store.Database.UpdateEdgeBy` | backend/usecases/edge.py:182-186 | update_by returns None for a missing id, else writes the patched row |
| `Store.Database.UpdateProviderBy` | backend/usecases/llm_provider.py:123-127 | update_by returns None for a missing id; else writes the patched row with name and base URL cut to their widths when the excess is all spaces, or raises ValueTooLong and writes nothing |
| `Store.Database.UpdateExecutionBy` | backend/usecases/execution.py:125-129 | update_by returns None for a missing id, else writes the patched row |
| `Store.Database.UpdateInputNodeBy` | backend/usecases/input_node.py:98-102 | update_by keyed on node_id |
| `Store.Database.UpdateLLMNodeBy` | backend/usecases/llm_node.py:129-133 | update_by keyed on node_id; writes the patched row with the model cut to 128 characters when the excess is all spaces, or raises ValueTooLong and writes nothing |
| `Store.Database.UpdateOutputNodeBy` | backend/usecases/output_node.py:100-104 | update_by keyed on node_id |
| `Store.Database.DeleteWorkflowBy` | backend/models/execution.py:17-21 | removes the workflow and runs the whole workflow cascade |
| `Store.Database.DeleteNodeBy` | backend/models/edge.py:18-27 | removes the node and runs the node cascade |
| `Store.Database.DeleteEdgeBy` | backend/usecases/edge.py:209 | delete_by reports whether the edge existed and removes it |
| `Store.Database.DeleteProviderBy` | backend/models/node.py:65-69 | refuses with ForeignKeyRestrict while an LLM row references the provider, else reports and removes |
| `Store.Database.DeleteExecutionBy` | backend/usecases/execution.py:145-147 | delete_by reports whether the execution existed and removes it |
| `Store.Database.DeleteInputNodeBy` | backend/usecases/input_node.py:118-120 | delete_by keyed on node_id |
| `Store.Database.DeleteLLMNodeBy` | backend/usecases/llm_node.py:149 | delete_by keyed on node_id |
| `Store.Database.DeleteOutputNodeBy` | backend/usecases/output_node.py:120-122 | delete_by keyed on node_id |
| `WorkflowUsecase.CreateWorkflowEffect` | backend/usecases/workflow.py:35-42 | UserNotFound exactly when the owner is not a user; for a user, success exactly when the name fits 255 characters once trailing spaces past the width are cut, else ValueTooLong; on success the stored workflow has the given owner and the name cut to 255 under a fresh id, and nothing else changes; a failure writes nothing; validity is kept |
| `WorkflowUsecase.PaddedNameIsCut` | backend/models/workflow.py:19-23 | a 255-character name followed by any number of spaces creates the workflow with exactly that name: PostgreSQL cuts the trailing spaces instead of raising |
| `WorkflowUsecase.CreateWorkflow` | backend/usecases/workflow.py:18-42 | the method does what `CreateWorkflowEffect` says |
| `WorkflowUsecase.GetWorkflows` | backend/usecases/workflow.py:44-58 | exactly the workflows of the owner when the filter is truthy, all workflows when it is None or 0 |
| `WorkflowUsecase.GetWorkflow` | backend/usecases/workflow.py:74-79 | the stored row, or WorkflowNotFound exactly when the id is missing |
| `WorkflowUsecase.UpdateWorkflowEffect` | backend/usecases/workflow.py:98-109 | an empty patch is a read and writes nothing; otherwise WorkflowNotFound for a missing id; for an existing one, success exactly when the patched name is accepted by its VARCHAR(255) column (else ValueTooLong), and then the supplied name, cut to 255, is written and id and owner are kept |
| `WorkflowUsecase.UpdateWorkflow` | backend/usecases/workflow.py:81-109 | the method does what `UpdateWorkflowEffect` says |
| `WorkflowUsecase.DeleteWorkflowEffect` | backend/usecases/workflow.py:122-126 | success exactly when the workflow existed, and then the store is the workflow cascade; otherwise WorkflowNotFound and no change |
| `WorkflowUsecase.DeleteWorkflow` | backend/usecases/workflow.py:111-126 | the method does what `DeleteWorkflowEffect` says |
| `WorkflowUsecase.DeleteWorkflowRemovesEverythingOfIt` | backend/models/edge.py:14-15 | after the delete no node, edge or execution of the workflow is left and the workflow reads as not found |
| `NodeUsecase.CreateNodeEffect` | backend/usecases/node.py:43-57 | WorkflowNotFound exactly when the workflow is missing (no owner check); on success the node has the given workflow, type and positions under a fresh id |
| `NodeUsecase.CreateNode` | backend/usecases/node.py:19-57 | the method does what `CreateNodeEffect` says; positions default to 0.0 |
| `NodeUsecase.GetNodes` | backend/usecases/node.py:59-73 | filters by workflow only when the filter is truthy |
| `NodeUsecase.GetNode` | backend/usecases/node.py:89-92 | the stored node, or NodeNotFound exactly when it is missing |
| `NodeUsecase.UpdateNodeEffect` | backend/usecases/node.py:111-122 | success exactly when the node exists; only the supplied positions change; type and workflow never change; an empty patch writes nothing |
| `NodeUsecase.UpdateNode` | backend/usecases/node.py:94-122 | the method does what `UpdateNodeEffect` says |
| `NodeUsecase.DeleteNodeEffect` | backend/usecases/node.py:135-137 | success exactly when the node existed, and then the store is the node cascade; otherwise NodeNotFound and no change |
| `NodeUsecase.DeleteNode` | backend/usecases/node.py:124-137 | the method does what `DeleteNodeEffect` says |
| `NodeUsecase.DeleteNodeCascades` | backend/models/node.py:43 | after the delete no edge touches the node, it has no config rows, and reading it gives NodeNotFound |
| `NodeUsecase.DeleteNodeTwice` | backend/tests/test_api/test_node.py:162-169 | the first delete succeeds; the second gives NodeNotFound and changes nothing |
| `EdgeUsecase.EndpointError` | backend/usecases/edge.py:56-71 | no error exactly when both endpoints are nodes of the workflow; NodeNotFound exactly when one is missing; otherwise EdgeNodeMismatch |
| `EdgeUsecase.InsertEdgeKeepsValid` | backend/usecases/edge.py:68-80 | inserting an edge whose endpoints lie in its workflow keeps all constraints and invariants |
| `EdgeUsecase.CreateEdgeEffect` | backend/usecases/edge.py:50-80 | the first failure wins, in this order: WorkflowNotFound for an unowned or missing workflow, NodeNotFound, EdgeNodeMismatch; success exactly when the workflow is owned and both endpoints are in it; the new edge carries the arguments under a fresh id; a failure writes nothing |
| `EdgeUsecase.CreateEdge` | backend/usecases/edge.py:24-80 | the method does what `CreateEdgeEffect` says |
| `EdgeUsecase.GetEdges` | backend/usecases/edge.py:99-107 | WorkflowNotFound exactly when the workflow is not owned; otherwise exactly the edges of that workflow |
| `EdgeUsecase.GetEdge` | backend/usecases/edge.py:125-135 | EdgeNotFound exactly when the edge is missing; WorkflowNotFound exactly when its workflow is not the caller's; success exactly when the edge exists in a workflow the caller owns, and then the stored edge |
| `EdgeUsecase.UpdateEdgeEffect` | backend/usecases/edge.py:156-190 | read and ownership errors first; an empty patch returns the stored edge and writes nothing; otherwise the effective endpoints are checked against the edge's own workflow, and only the endpoints change |
| `EdgeUsecase.UpdateEdge` | backend/usecases/edge.py:137-190 | the method does what `UpdateEdgeEffect` says |
| `EdgeUsecase.DeleteEdgeEffect` | backend/usecases/edge.py:207-211 | EdgeNotFound or WorkflowNotFound as for get_edge, and no change; otherwise exactly that edge is removed |
| `EdgeUsecase.DeleteEdge` | backend/usecases/edge.py:192-211 | the method does what `DeleteEdgeEffect` says |
| `EdgeUsecase.CreatedEdgeIsListed` | backend/tests/test_api/test_edge.py:43-49 | a created edge reads back unchanged and is listed for its workflow |
| `EdgeUsecase.ForeignWorkflowIsNotFound` | backend/usecases/edge.py:50-54 | another user's workflow is reported as WorkflowNotFound by create_edge and get_edges |
| `InputNodeUsecase.CreateInputNodeEffect` | backend/usecases/input_node.py:41-54 | in order: NodeNotFound, NodeTypeMismatch unless the type is INPUT, NodeConfigExists; on success exactly the row (node_id, format) is added |
| `InputNodeUsecase.CreateInputNode` | backend/usecases/input_node.py:19-54 | the method does what `CreateInputNodeEffect` says; the format defaults to TEXT |
| `InputNodeUsecase.GetInputNode` | backend/usecases/input_node.py:70-75 | NodeNotFound exactly when no input row exists, even if the node exists |
| `InputNodeUsecase.UpdateInputNodeEffect` | backend/usecases/input_node.py:94-105 | success exactly when the row exists; only the supplied format changes; an empty patch writes nothing |
| `InputNodeUsecase.UpdateInputNode` | backend/usecases/input_node.py:77-105 | the method does what `UpdateInputNodeEffect` says |
| `InputNodeUsecase.DeleteInputNodeEffect` | backend/usecases/input_node.py:118-122 | success exactly when a row existed, and then exactly that row is removed; otherwise NodeNotFound |
| `InputNodeUsecase.DeleteInputNode` | backend/usecases/input_node.py:107-122 | the method does what `DeleteInputNodeEffect` says |
| `InputNodeUsecase.SecondCreateInputNodeFails` | backend/usecases/input_node.py:47-49 | after a successful create, a second create for the node gives NodeConfigExists and changes nothing |
| `InputNodeUsecase.CreatedInputNodeReadsBack` | backend/usecases/input_node.py:51-54 | the created row is what get_input_node returns |
| `OutputNodeUsecase.CreateOutputNodeEffect` | backend/usecases/output_node.py:41-56 | in order: NodeNotFound, NodeTypeMismatch unless the type is OUTPUT, NodeConfigExists; on success exactly the row (node_id, format) is added |
| `OutputNodeUsecase.CreateOutputNode` | backend/usecases/output_node.py:19-56 | the method does what `CreateOutputNodeEffect` says; the format defaults to TEXT |
| `OutputNodeUsecase.GetOutputNode` | backend/usecases/output_node.py:72-77 | NodeNotFound exactly when no output row exists |
| `OutputNodeUsecase.UpdateOutputNodeEffect` | backend/usecases/output_node.py:96-107 | success exactly when the row exists; only the supplied format changes; an empty patch writes nothing |
| `OutputNodeUsecase.UpdateOutputNode` | backend/usecases/output_node.py:79-107 | the method does what `UpdateOutputNodeEffect` says |
| `OutputNodeUsecase.DeleteOutputNodeEffect` | backend/usecases/output_node.py:120-124 | success exactly when a row existed, and then exactly that row is removed; otherwise NodeNotFound |
| `OutputNodeUsecase.DeleteOutputNode` | backend/usecases/output_node.py:109-124 | the method does what `DeleteOutputNodeEffect` says |
| `OutputNodeUsecase.SecondCreateOutputNodeFails` | backend/usecases/output_node.py:47-51 | a second create for the same node gives NodeConfigExists and changes nothing |
| `OutputNodeUsecase.CreatedOutputNodeReadsBack` | backend/usecases/output_node.py:53-56 | the created row is what get_output_node returns |
| `LLMNodeUsecase.CreateLLMNodeEffect` | backend/usecases/llm_node.py:54-79 | in order: NodeNotFound, NodeTypeMismatch, LLMProviderNotFound, NodeConfigExists; success exactly when all pass and the model is accepted by its VARCHAR(128) column, ValueTooLong when all pass and it is not; the row holds the arguments as given, with the model cut to 128 characters |
| `LLMNodeUsecase.CreateLLMNode` | backend/usecases/llm_node.py:25-79 | the method does what `CreateLLMNodeEffect` says; temperature defaults to 0.7 and max_tokens to 1024 |
| `LLMNodeUsecase.GetLLMNode` | backend/usecases/llm_node.py:95-98 | NodeNotFound exactly when no LLM row exists |
| `LLMNodeUsecase.UpdateLLMNodeEffect` | backend/usecases/llm_node.py:117-136 | an empty patch is a read; a supplied provider that does not exist gives LLMProviderNotFound before the row is looked at; otherwise NodeNotFound for a missing row; for an existing row, success exactly when the patched model is accepted by its VARCHAR(128) column (else ValueTooLong), and then each supplied field is written, the model cut to 128 characters, and the others kept |
| `LLMNodeUsecase.UpdateLLMNode` | backend/usecases/llm_node.py:100-136 | the method does what `UpdateLLMNodeEffect` says |
| `LLMNodeUsecase.DeleteLLMNodeEffect` | backend/usecases/llm_node.py:149-151 | success exactly when a row existed, and then exactly that row is removed; otherwise NodeNotFound |
| `LLMNodeUsecase.DeleteLLMNode` | backend/usecases/llm_node.py:138-151 | the method does what `DeleteLLMNodeEffect` says |
| `LLMNodeUsecase.SecondCreateLLMNodeFails` | backend/usecases/llm_node.py:66-68 | after a successful create, any second create for the node with an existing provider gives NodeConfigExists |
| `LLMNodeUsecase.WrongTypeNeverConfigured` | backend/usecases/llm_node.py:57-58 | a node of another type gets NodeTypeMismatch and nothing is written |
| `ExecutionUsecase.CreateExecutionEffect` | backend/usecases/execution.py:43-59 | WorkflowNotFound exactly when the workflow is missing (no owner check); otherwise a new execution with the given status or CREATED, the input, `started_at` = now and no finish time, output or error |
| `ExecutionUsecase.CreateExecution` | backend/usecases/execution.py:21-59 | the method does what `CreateExecutionEffect` says; the status enters the payload only when given |
| `ExecutionUsecase.GetExecutions` | backend/usecases/execution.py:61-75 | filters by workflow only when the filter is truthy |
| `ExecutionUsecase.GetExecution` | backend/usecases/execution.py:93-98 | ExecutionNotFound exactly when the id is missing |
| `ExecutionUsecase.Stamp` | backend/usecases/execution.py:121-123 | a supplied terminal status with no supplied finish time adds `finished_at` = now; a supplied finish time is kept; nothing else in the patch changes |
| `ExecutionUsecase.UpdateExecutionEffect` | backend/usecases/execution.py:117-132 | success exactly when the execution exists; each supplied field is written and the others are kept; `finished_at` is the supplied value, else now for a supplied SUCCESS/FAILED, else unchanged; an empty patch writes nothing |
| `ExecutionUsecase.UpdateExecution` | backend/usecases/execution.py:100-132 | the method does what `UpdateExecutionEffect` says, and edits the update data in place as the setdefault does |
| `ExecutionUsecase.DeleteExecutionEffect` | backend/usecases/execution.py:145-149 | success exactly when the execution existed, and then exactly it is removed; otherwise ExecutionNotFound |
| `ExecutionUsecase.DeleteExecution` | backend/usecases/execution.py:134-149 | the method does what `DeleteExecutionEffect` says |
| `ExecutionUsecase.AnyStatusTransition` | backend/usecases/execution.py:121-129 | any status can be written over any stored status |
| `ExecutionUsecase.TerminalStatusStampsFinish` | backend/tests/test_api/test_execution.py:123-126 | SUCCESS or FAILED sets `finished_at` to now, or to the supplied value |
| `ExecutionUsecase.NonTerminalStatusKeepsFinish` | backend/usecases/execution.py:121-123 | CREATED or RUNNING leaves `finished_at` as stored |
| `LLMProviderUsecase.CreateProviderEffect` | backend/usecases/llm_provider.py:47-61 | UserNotFound for an unknown user; for a known user, success exactly when name and base URL are accepted by their VARCHAR(128) and VARCHAR(512) columns, else ValueTooLong; on success the six fields are stored as given, name and base URL cut to their widths, under a fresh id, no other provider changes and only the provider sequence advances |
| `LLMProviderUsecase.CreateProvider` | backend/usecases/llm_provider.py:19-61 | the method does what `CreateProviderEffect` says; base_url defaults to None and is_default to false |
| `LLMProviderUsecase.GetProviders` | backend/usecases/llm_provider.py:63-77 | filters by user only when the filter is truthy |
| `LLMProviderUsecase.GetProvider` | backend/usecases/llm_provider.py:95-100 | LLMProviderNotFound exactly when the id is missing |
| `LLMProviderUsecase.UpdateProviderEffect` | backend/usecases/llm_provider.py:119-130 | an empty patch is a read; otherwise LLMProviderNotFound for a missing id; for an existing one, success exactly when the patched name and base URL are accepted by their columns (else ValueTooLong), and then exactly the supplied fields change, name and base URL cut to their widths |
| `LLMProviderUsecase.UpdateProvider` | backend/usecases/llm_provider.py:102-130 | the method does what `UpdateProviderEffect` says |
| `LLMProviderUsecase.DeleteProviderEffect` | backend/usecases/llm_provider.py:143-147 | ForeignKeyRestrict while an LLM row uses the provider; else success exactly when it existed, removing only it; else LLMProviderNotFound |
| `LLMProviderUsecase.DeleteProvider` | backend/usecases/llm_provider.py:132-147 | the method does what `DeleteProviderEffect` says |
| `LLMProviderUsecase.ProviderInUseIsKept` | backend/models/node.py:65-69 | the provider of a stored LLM row cannot be deleted, and the attempt changes nothing |
| `Integrity.StepKeepsValid` | backend/models/edge.py:13-27 | every state-changing usecase call keeps both graph invariants and all constraints |
| `Integrity.RunKeepsValid` | backend/models/node.py:37-103 | any sequence of usecase calls keeps them (by induction on the sequence) |
| `Integrity.GraphInvariantsAlwaysHold` | backend/models/edge.py:8-27 | from a store with only users, every reachable store has edges within their workflow and configuration rows on nodes of the matching type |
| `Integrity.EndToEndScenario` | backend/tests/test_api/test_execution.py:113-126 | a workflow with configured INPUT and OUTPUT nodes joined by an edge, then an execution created as CREATED and marked SUCCESS with a stamped finish time; every step succeeds |

## Left out

- Authentication and users. JWT, password hashing and the user usecase are not part of this model. The set of users is fixed for the life of a `Database`, so the owner foreign keys (users ON DELETE CASCADE) never fire.
- Health checks, routers, dependencies, settings and the frontend: network I/O and plumbing.
- Timestamps `created_at` and `updated_at` on workflows: never read by the usecases.
- The order of `get_all` results: lists are modelled as maps from id to row.
- Floating point: positions and temperature are opaque `real` values, never computed with.
- The clock: `now` is a parameter. The database's own `started_at` default is modelled as the same clock reading.
- Concurrency and transactions: each usecase call is atomic and sequential. The check-then-act races between the `get_by` checks and the write are not modelled.
- Id sequences: a failed insert does not advance a sequence here. The real sequence may skip values; ids stay unique either way.
- The `data` field of the node create and update payloads: there is no column for it, so `NodePatch` has no such field.
- Foreign-key violations on insert: every usecase looks up each parent row before writing, so no insert in the model can break a foreign key. The database's own rejection is therefore not modelled.
- Repository internals: SQL generation is not modelled. Only the `get_by`/`get_all`/`update_by`/`delete_by` contract is.
- Update keywords: every update usecase accepts arbitrary keyword arguments and writes whatever keys it is given. The patches here carry only the fields of the `*Update` request schemas the routers pass. For executions, whose update schema is not part of this model, the patch carries the fields the finish-time stamping and the execution tests use: status, input and output data, error and `finished_at`. So ids, parent ids (a node's or edge's `workflow_id`, an LLM row's `node_id`) and `started_at` cannot be written in this model. That is because of this restriction, not because the usecases refuse such keys. A `workflow_id` keyword in `update_edge` would move an edge out of its nodes' workflow, since the endpoints are checked against the old one. The graph invariants in `Integrity` hold only for calls whose patches carry the request-schema fields.
- 32-bit INTEGER columns: every primary key and every foreign key is a PostgreSQL INTEGER column, so the database refuses an id outside -2147483648..2147483647. Ids are unbounded `int` here, so a lookup by such an id reports not-found where the database raises an error.
- LLMNodeUsecase.CreateLLMNodeEffect, LLMNodeUsecase.UpdateLLMNodeEffect: `llm_nodes.max_tokens` is an INTEGER column (backend/models/node.py:81-85), but `maxTokens` is an unbounded `int` here. So these succeed for a `max_tokens` outside -2147483648..2147483647, which the database refuses.
- NUL characters: PostgreSQL text and VARCHAR columns cannot hold the character with code zero, so the database refuses a workflow or provider name, a base URL, an API key, a model or an execution error that contains one. Strings here are any `seq<char>`, so the creates and updates that write these columns succeed for such values.
- Returned rows: `create` and `update_by` are taken to return the row as stored, with any VARCHAR value already cut to its width, as a refresh or a RETURNING clause reads it back. The repository code itself is not part of this model.
