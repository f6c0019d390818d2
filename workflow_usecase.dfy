/** Workflows: created for an existing user, listed with an optional owner
    filter, read, partially updated, and deleted together with everything
    that cascades from them. Each operation is a pure specification
    (`...Effect`, or a read function) and a method on the database proved
    to behave exactly as it says. */
module WorkflowUsecase {
  import opened Rows
  import opened Schema
  import opened Store

  /* ---------- create_workflow ---------- */

  function CreateWorkflowEffect(t: Tables, ownerId: int, name: string): (r: Effect<Workflow>)
    ensures r.result.Failure? ==> r.after == t
    ensures ownerId !in t.users ==> r.result == Failure(UserNotFound)
    ensures ownerId in t.users && !VarcharAccepts(name, WorkflowNameMax) ==> r.result == Failure(ValueTooLong)
    ensures r.result.Success? <==> ownerId in t.users && VarcharAccepts(name, WorkflowNameMax)
    ensures r.result.Success? ==>
      var w := r.result.value;
      && w.ownerId == ownerId && CutTo(name, WorkflowNameMax, w.name)
      && (KeysAreIds(t) ==> w.id !in t.workflows)
      && r.after == t.(workflows := t.workflows[w.id := w], next := t.next.(workflow := r.after.next.workflow))
      && r.after.next.workflow > w.id
    ensures Valid(t) ==> Valid(r.after)
  {
    if ownerId !in t.users then Effect(Failure(UserNotFound), t)
    else InsertWorkflow(t, ownerId, name)
  }

  method CreateWorkflow(db: Database, ownerId: int, name: string) returns (r: Result<Workflow>)
    requires Valid(db.State())
    modifies db
    ensures Valid(db.State())
    ensures Effect(r, db.State()) == CreateWorkflowEffect(old(db.State()), ownerId, name)
  {
    if ownerId !in db.users {
      return Failure(UserNotFound);
    }
    r := db.InsertWorkflow(ownerId, name);
  }

  /** A name longer than the column is not refused when its excess is all
      spaces: the workflow is created with the name cut to 255 characters. */
  lemma PaddedNameIsCut(t: Tables, ownerId: int, name: string, padding: nat)
    requires ownerId in t.users && |name| == WorkflowNameMax
    ensures var r := CreateWorkflowEffect(t, ownerId, name + seq(padding, _ => ' '));
      r.result.Success? && r.result.value.name == name
  {
    var padded := name + seq(padding, _ => ' ');
    assert padded[..WorkflowNameMax] == name;
  }

  /* ---------- reads ---------- */

  /** All workflows, or only those of `ownerId` when it is truthy. */
  function GetWorkflows(t: Tables, ownerId: Option<int>): (r: map<int, Workflow>)
    ensures forall k :: k in r <==> k in t.workflows && (Truthy(ownerId) ==> t.workflows[k].ownerId == ownerId.value)
    ensures forall k :: k in r ==> r[k] == t.workflows[k]
  {
    if Truthy(ownerId) then Where(t.workflows, (w: Workflow) => w.ownerId == ownerId.value)
    else t.workflows
  }

  function GetWorkflow(t: Tables, workflowId: int): (r: Result<Workflow>)
    ensures r.Success? <==> workflowId in t.workflows
    ensures r.Success? ==> r.value == t.workflows[workflowId]
    ensures r.Failure? ==> r.error == WorkflowNotFound
  {
    match Lookup(t.workflows, workflowId)
    case None => Failure(WorkflowNotFound)
    case Some(w) => Success(w)
  }

  /* ---------- update_workflow ---------- */

  /** A patch with nothing supplied is a read; otherwise the supplied fields
      are written, or WorkflowNotFound when no row matched. */
  function UpdateWorkflowEffect(t: Tables, workflowId: int, p: WorkflowPatch): (r: Effect<Workflow>)
    ensures r.result.Failure? ==> r.after == t
    ensures p.IsEmpty() ==> r.after == t
    ensures workflowId !in t.workflows ==> r.result == Failure(WorkflowNotFound)
    ensures workflowId in t.workflows && p.IsEmpty() ==> r.result == Success(t.workflows[workflowId])
    ensures workflowId in t.workflows && !p.IsEmpty() ==>
      (r.result.Success? <==> WorkflowAccepted(p.ApplyTo(t.workflows[workflowId])))
    ensures workflowId in t.workflows && !p.IsEmpty() && !WorkflowAccepted(p.ApplyTo(t.workflows[workflowId])) ==>
      r.result == Failure(ValueTooLong)
    ensures r.result.Success? ==>
      var w0 := t.workflows[workflowId];
      var w := r.result.value;
      && workflowId in t.workflows
      && w.id == w0.id && w.ownerId == w0.ownerId
      && (!p.IsEmpty() ==> CutTo(p.name.GetOr(w0.name), WorkflowNameMax, w.name))
      && r.after == t.(workflows := t.workflows[workflowId := w])
    ensures r.result.Failure? ==> r.result.error in {WorkflowNotFound, ValueTooLong}
    ensures Valid(t) ==> Valid(r.after)
  {
    if p.IsEmpty() then Effect(GetWorkflow(t, workflowId), t)
    else OrNotFound(UpdateWorkflowBy(t, workflowId, p), WorkflowNotFound)
  }

  method UpdateWorkflow(db: Database, workflowId: int, p: WorkflowPatch) returns (r: Result<Workflow>)
    requires Valid(db.State())
    modifies db
    ensures Valid(db.State())
    ensures Effect(r, db.State()) == UpdateWorkflowEffect(old(db.State()), workflowId, p)
  {
    if p.IsEmpty() {
      return GetWorkflow(db.State(), workflowId);
    }
    ghost var before := db.State();
    var updated := db.UpdateWorkflowBy(workflowId, p);
    if updated.Failure? {
      return Failure(updated.error);
    }
    if updated.value.None? {
      return Failure(WorkflowNotFound);
    }
    r := Success(updated.value.value);
    assert Effect(r, db.State()) == UpdateWorkflowEffect(before, workflowId, p);
  }

  /* ---------- delete_workflow ---------- */

  function DeleteWorkflowEffect(t: Tables, workflowId: int): (r: Effect<()>)
    ensures r.result.Success? <==> workflowId in t.workflows
    ensures r.result.Failure? ==> r.result.error == WorkflowNotFound && r.after == t
    ensures r.result.Success? ==> r.after == Schema.DeleteWorkflow(t, workflowId)
    ensures Valid(t) ==> Valid(r.after)
  {
    var r := DeletedOr(DeleteWorkflowBy(t, workflowId), WorkflowNotFound);
    assert Valid(t) ==> Valid(r.after) by {
      if Valid(t) && workflowId in t.workflows {
        DeleteWorkflowKeepsValid(t, workflowId);
      }
    }
    r
  }

  method DeleteWorkflow(db: Database, workflowId: int) returns (r: Result<()>)
    requires Valid(db.State())
    modifies db
    ensures Valid(db.State())
    ensures Effect(r, db.State()) == DeleteWorkflowEffect(old(db.State()), workflowId)
  {
    ghost var before := db.State();
    var deleted := db.DeleteWorkflowBy(workflowId);
    if !deleted.value {
      return Failure(WorkflowNotFound);
    }
    r := Success(());
    assert Effect(r, db.State()) == DeleteWorkflowEffect(before, workflowId);
  }

  /* ---------- properties ---------- */

  /** After a delete nothing that belonged to the workflow is left: no node,
      no edge, no execution, and the workflow itself cannot be read. */
  lemma DeleteWorkflowRemovesEverythingOfIt(t: Tables, workflowId: int)
    requires Valid(t) && workflowId in t.workflows
    ensures var a := DeleteWorkflowEffect(t, workflowId).after;
      && GetWorkflow(a, workflowId) == Failure(WorkflowNotFound)
      && (forall k :: k in a.nodes ==> a.nodes[k].workflowId != workflowId)
      && (forall k :: k in a.edges ==> a.edges[k].workflowId != workflowId)
      && (forall k :: k in a.executions ==> a.executions[k].workflowId != workflowId)
  {
  }
}
