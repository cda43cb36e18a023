/**
 * src/app/api/actions/workflow.actions.ts: `runWorkflowAction`. The clock
 * readings (`Date.now()` and the two ISO timestamps) and the workflow
 * service's outcome are parameters.
 */
module WorkflowActions {
  import opened Common
  import opened Domain
  import opened ServerActions
  import opened WorkflowServices

  const WorkflowIdPrefix: string := "workflow-"
  const RunFallback: string := "Failed to run workflow"

  /** `workflow-${Date.now()}` */
  function ExecutionId(now: nat): (id: string)
    ensures |id| > |WorkflowIdPrefix|
    ensures id[..|WorkflowIdPrefix|] == WorkflowIdPrefix
    ensures forall k :: |WorkflowIdPrefix| <= k < |id| ==> '0' <= id[k] <= '9'
    ensures DecimalValue(id[|WorkflowIdPrefix|..]) == now
  {
    var id := WorkflowIdPrefix + NatToString(now);
    assert id[|WorkflowIdPrefix|..] == NatToString(now);
    id
  }

  /**
   * `runWorkflowAction(accountId, documentIds)`: signed-in check, input check,
   * then the workflow; a completed execution echoes the request.
   */
  function RunWorkflowAction(
    accountId: string,
    documentIds: seq<string>,
    auth: Outcome<AuthResponse>,
    execute: (string, seq<string>) -> Outcome<WorkflowResult>,
    now: nat,
    createdAt: string,
    completedAt: string): (r: ActionResult<WorkflowExecution>)
    ensures SignedInUser(auth).Threw? ==> r == Failure(CaughtMessage(SignedInUser(auth).thrown, RunFallback))
    ensures SignedInUser(auth).Returned? && accountId == "" ==> r == Failure(AccountIdRequiredMessage)
    ensures SignedInUser(auth).Returned? && accountId != "" && documentIds == [] ==> r == Failure(NoDocumentsMessage)
    ensures r.Success? <==>
      SignedInUser(auth).Returned? && accountId != "" && documentIds != [] && execute(accountId, documentIds).Returned?
    ensures r.Success? ==> r.data == WorkflowExecution(
      ExecutionId(now), accountId, documentIds, Completed,
      Some(execute(accountId, documentIds).value), createdAt, Some(completedAt))
    ensures SignedInUser(auth).Returned? && accountId != "" && documentIds != [] && execute(accountId, documentIds).Threw? ==>
      r == Failure(CaughtMessage(execute(accountId, documentIds).thrown, RunFallback))
  {
    var attempt: Outcome<WorkflowExecution> :=
      match SignedInUser(auth)
      case Threw(t) => Threw(t)
      case Returned(_) =>
        var validation := ValidateWorkflowInputs(accountId, documentIds);
        if !validation.valid then Threw(ErrorValue(validation.error.value))
        else
          match execute(accountId, documentIds)
          case Threw(t) => Threw(t)
          case Returned(result) =>
            Returned(WorkflowExecution(
              ExecutionId(now), accountId, documentIds, Completed, Some(result), createdAt, Some(completedAt)));
    Settle(attempt, RunFallback)
  }
}
