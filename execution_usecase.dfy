/** Executions: runs of a workflow. A new execution starts CREATED unless a
    status is given; an update writes only the supplied fields, stamps
    `finished_at` with the clock when the supplied status is terminal and no
    finish time was supplied, and accepts any status change at all. The
    clock is the `now` parameter. */
module ExecutionUsecase {
  import opened Rows
  import opened Schema
  import opened Store

  /* ---------- create_execution ---------- */

  /** No owner check: any existing workflow is accepted. */
  function CreateExecutionEffect(
    t: Tables, workflowId: int, inputData: Option<Json>, status: Option<ExecutionStatus>, now: Timestamp)
    : (r: Effect<Execution>)
    ensures r.result.Failure? <==> workflowId !in t.workflows
    ensures r.result.Failure? ==> r.result.error == WorkflowNotFound && r.after == t
    ensures r.result.Success? ==>
      var x := r.result.value;
      && x.workflowId == workflowId && x.inputData == inputData
      && x.status == (if status.Some? then status.value else CREATED)
      && x.startedAt == now && x.finishedAt.None?
      && x.outputData.None? && x.error.None?
      && (KeysAreIds(t) ==> x.id !in t.executions)
      && r.after == t.(executions := t.executions[x.id := x], next := t.next.(execution := r.after.next.execution))
      && r.after.next.execution > x.id
    ensures Valid(t) ==> Valid(r.after)
  {
    if workflowId !in t.workflows then Effect(Failure(WorkflowNotFound), t)
    else InsertExecution(t, workflowId, status.GetOr(DefaultStatus), inputData, now)
  }

  /** The insert payload gets a status only when one is given; otherwise
      the column default applies. */
  method CreateExecution(
    db: Database, workflowId: int, now: Timestamp,
    inputData: Option<Json> := None, status: Option<ExecutionStatus> := None)
    returns (r: Result<Execution>)
    requires Valid(db.State())
    modifies db
    ensures Valid(db.State())
    ensures Effect(r, db.State()) == CreateExecutionEffect(old(db.State()), workflowId, inputData, status, now)
  {
    if Lookup(db.workflows, workflowId).None? {
      return Failure(WorkflowNotFound);
    }
    var payloadStatus := DefaultStatus;
    if status.Some? {
      payloadStatus := status.value;
    }
    ghost var before := db.State();
    r := db.InsertExecution(workflowId, payloadStatus, inputData, now);
    assert Effect(r, db.State()) == CreateExecutionEffect(before, workflowId, inputData, status, now);
  }

  /* ---------- reads ---------- */

  /** All executions, or only those of `workflowId` when it is truthy. */
  function GetExecutions(t: Tables, workflowId: Option<int>): (r: map<int, Execution>)
    ensures forall k :: k in r <==> k in t.executions && (Truthy(workflowId) ==> t.executions[k].workflowId == workflowId.value)
    ensures forall k :: k in r ==> r[k] == t.executions[k]
  {
    if Truthy(workflowId) then Where(t.executions, (x: Execution) => x.workflowId == workflowId.value)
    else t.executions
  }

  function GetExecution(t: Tables, executionId: int): (r: Result<Execution>)
    ensures r.Success? <==> executionId in t.executions
    ensures r.Success? ==> r.value == t.executions[executionId]
    ensures r.Failure? ==> r.error == ExecutionNotFound
  {
    match Lookup(t.executions, executionId)
    case None => Failure(ExecutionNotFound)
    case Some(x) => Success(x)
  }

  /* ---------- update_execution ---------- */

  /** The `setdefault` on the update data: a terminal supplied status with
      no supplied finish time gets `now` as its finish time. */
  function Stamp(p: ExecutionPatch, now: Timestamp): (q: ExecutionPatch)
    ensures q.status == p.status && q.inputData == p.inputData
    ensures q.outputData == p.outputData && q.error == p.error
    ensures p.finishedAt.Some? ==> q.finishedAt == p.finishedAt
    ensures p.finishedAt.None? && p.status.Some? && IsTerminal(p.status.value) ==> q.finishedAt == Some(now)
    ensures (p.status.None? || !IsTerminal(p.status.value)) ==> q == p
  {
    if p.status.Some? && IsTerminal(p.status.value) && p.finishedAt.None? then p.(finishedAt := Some(now))
    else p
  }

  function UpdateExecutionEffect(t: Tables, executionId: int, p: ExecutionPatch, now: Timestamp)
    : (r: Effect<Execution>)
    ensures r.result.Success? <==> executionId in t.executions
    ensures r.result.Failure? ==> r.result.error == ExecutionNotFound && r.after == t
    ensures p.IsEmpty() ==> r.after == t
    ensures r.result.Success? ==>
      var x := r.result.value;
      var x0 := t.executions[executionId];
      && x.id == x0.id && x.workflowId == x0.workflowId && x.startedAt == x0.startedAt
      && x.status == p.status.GetOr(x0.status)
      && x.inputData == (if p.inputData.Some? then p.inputData else x0.inputData)
      && x.outputData == (if p.outputData.Some? then p.outputData else x0.outputData)
      && x.error == (if p.error.Some? then p.error else x0.error)
      && x.finishedAt ==
           (if p.finishedAt.Some? then p.finishedAt
            else if p.status.Some? && IsTerminal(p.status.value) then Some(now)
            else x0.finishedAt)
      && r.after == t.(executions := t.executions[executionId := x])
    ensures Valid(t) ==> Valid(r.after)
  {
    if p.IsEmpty() then Effect(GetExecution(t, executionId), t)
    else OrNotFound(UpdateExecutionBy(t, executionId, Stamp(p, now)), ExecutionNotFound)
  }

  method UpdateExecution(db: Database, executionId: int, p: ExecutionPatch, now: Timestamp)
    returns (r: Result<Execution>)
    requires Valid(db.State())
    modifies db
    ensures Valid(db.State())
    ensures Effect(r, db.State()) == UpdateExecutionEffect(old(db.State()), executionId, p, now)
  {
    if p.IsEmpty() {
      return GetExecution(db.State(), executionId);
    }
    var data := p;
    if data.status.Some? && IsTerminal(data.status.value) && data.finishedAt.None? {
      data := data.(finishedAt := Some(now));
    }
    assert data == Stamp(p, now);
    ghost var before := db.State();
    var updated := db.UpdateExecutionBy(executionId, data);
    if updated.value.None? {
      return Failure(ExecutionNotFound);
    }
    r := Success(updated.value.value);
    assert Effect(r, db.State()) == UpdateExecutionEffect(before, executionId, p, now);
  }

  /* ---------- delete_execution ---------- */

  function DeleteExecutionEffect(t: Tables, executionId: int): (r: Effect<()>)
    ensures r.result.Success? <==> executionId in t.executions
    ensures r.result.Failure? ==> r.result.error == ExecutionNotFound && r.after == t
    ensures r.result.Success? ==> r.after == t.(executions := t.executions - {executionId})
    ensures Valid(t) ==> Valid(r.after)
  {
    DeletedOr(DeleteExecutionBy(t, executionId), ExecutionNotFound)
  }

  method DeleteExecution(db: Database, executionId: int) returns (r: Result<()>)
    requires Valid(db.State())
    modifies db
    ensures Valid(db.State())
    ensures Effect(r, db.State()) == DeleteExecutionEffect(old(db.State()), executionId)
  {
    ghost var before := db.State();
    var deleted := db.DeleteExecutionBy(executionId);
    if !deleted.value {
      return Failure(ExecutionNotFound);
    }
    r := Success(());
    assert Effect(r, db.State()) == DeleteExecutionEffect(before, executionId);
  }

  /* ---------- properties ---------- */

  /** There is no transition guard: from any stored status, any status can
      be written, a finished run included. */
  lemma AnyStatusTransition(t: Tables, executionId: int, status: ExecutionStatus, now: Timestamp)
    requires executionId in t.executions
    ensures var r := UpdateExecutionEffect(t, executionId, ExecutionPatch(Some(status), None, None, None, None), now);
      r.result.Success? && r.result.value.status == status
  {
  }

  /** Reaching SUCCESS or FAILED without a supplied finish time stamps the
      clock; a supplied finish time is kept instead. */
  lemma TerminalStatusStampsFinish(t: Tables, executionId: int, status: ExecutionStatus, finishedAt: Option<Timestamp>, now: Timestamp)
    requires executionId in t.executions && IsTerminal(status)
    ensures var r := UpdateExecutionEffect(t, executionId, ExecutionPatch(Some(status), None, None, None, finishedAt), now);
      r.result.Success? && r.result.value.finishedAt == (if finishedAt.Some? then finishedAt else Some(now))
  {
  }

  /** A non-terminal status leaves the stored finish time as it was, even on
      a run that had finished: going back to RUNNING does not clear it. */
  lemma NonTerminalStatusKeepsFinish(t: Tables, executionId: int, status: ExecutionStatus, now: Timestamp)
    requires executionId in t.executions && !IsTerminal(status)
    ensures var r := UpdateExecutionEffect(t, executionId, ExecutionPatch(Some(status), None, None, None, None), now);
      r.result.Success? && r.result.value.finishedAt == t.executions[executionId].finishedAt
  {
  }
}
