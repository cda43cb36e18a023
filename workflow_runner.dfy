/**
 * src/components/WorkflowRunner/WorkflowRunner.tsx: the account and document
 * selection of the workflow runner and the life of one run. The component's
 * state is the `Runner` class; `onWorkflowComplete` is the log of executions
 * handed to the parent. The asynchronous `runWorkflow` is split at its one
 * `await`: `BeginRun` is what happens before the server action settles,
 * `FinishRun` what happens after.
 */
module WorkflowRunner {
  import opened Common
  import opened Domain
  import opened ServerActions
  import opened WorkflowServices
  import opened WorkflowActions

  /** `handleDocumentToggle`: a selected id is removed, any other id is added at the end. */
  function Toggle(selection: seq<string>, id: string): (r: seq<string>)
    ensures id in selection ==> id !in r && forall x :: x != id ==> (x in r <==> x in selection)
    ensures id !in selection ==> r == selection + [id]
  {
    if id in selection then
      WithoutMembers(selection, id);
      Without(selection, id)
    else selection + [id]
  }

  /** Removing a selected id cuts it out where it stood; the other ids keep their order. */
  lemma ToggleRemoves(selection: seq<string>, k: nat)
    requires NoDuplicates(selection) && k < |selection|
    ensures Toggle(selection, selection[k]) == selection[..k] + selection[k + 1..]
  {
    WithoutAt(selection, k);
  }

  /** Toggling never introduces a repeated id. */
  lemma {:induction false} ToggleKeepsNoDuplicates(selection: seq<string>, id: string)
    requires NoDuplicates(selection)
    ensures NoDuplicates(Toggle(selection, id))
  {
    if id in selection {
      var k :| 0 <= k < |selection| && selection[k] == id;
      ToggleRemoves(selection, k);
      NoDuplicatesCut(selection, k);
    } else {
      NoDuplicatesSnoc(selection, id);
    }
  }

  /**
   * Toggling the same id twice: an id that was not selected is added and
   * removed again, leaving the selection as it was; a selected id is removed
   * and added back at the end.
   */
  lemma {:induction false} ToggleTwice(selection: seq<string>, id: string)
    requires NoDuplicates(selection)
    ensures id !in selection ==> Toggle(Toggle(selection, id), id) == selection
    ensures forall k :: 0 <= k < |selection| && selection[k] == id ==>
      Toggle(Toggle(selection, id), id) == selection[..k] + selection[k + 1..] + [id]
  {
    if id !in selection {
      WithoutAppend(selection, [id], id);
      WithoutAbsent(selection, id);
      assert [id][1..] == [];
      assert Without([id], id) == [] + Without([], id);
    }
    forall k | 0 <= k < |selection| && selection[k] == id
      ensures Toggle(Toggle(selection, id), id) == selection[..k] + selection[k + 1..] + [id]
    {
      ToggleRemoves(selection, k);
    }
  }

  /** The run button's `disabled` condition. */
  predicate RunDisabled(accountId: string, documentIds: seq<string>, isRunning: bool) {
    accountId == "" || |documentIds| == 0 || isRunning
  }

  /** An enabled button always sends inputs the workflow check accepts, and the two agree when idle. */
  lemma EnabledRunIsValid(accountId: string, documentIds: seq<string>, isRunning: bool)
    ensures !RunDisabled(accountId, documentIds, isRunning) ==> ValidateWorkflowInputs(accountId, documentIds).valid
    ensures !isRunning ==> (RunDisabled(accountId, documentIds, isRunning) <==> !ValidateWorkflowInputs(accountId, documentIds).valid)
  {
  }

  /** `newExecution`: the record shown while the run is in flight. */
  function PendingExecution(now: nat, accountId: string, documentIds: seq<string>, createdAt: string): (e: WorkflowExecution)
    ensures e.status == Running && e.result.None? && e.completedAt.None?
    ensures e.id == ExecutionId(now) && e.accountId == accountId && e.documentIds == documentIds && e.createdAt == createdAt
  {
    WorkflowExecution(ExecutionId(now), accountId, documentIds, Running, None, createdAt, None)
  }

  /** Whether the awaited action came back with `success` and `data`. */
  predicate Completes(outcome: Outcome<ActionResult<WorkflowExecution>>) {
    outcome.Returned? && outcome.value.Success?
  }

  /**
   * The execution shown once the action has settled: the server's record on
   * success, otherwise the pending record marked failed and stamped.
   */
  function Settled(pending: WorkflowExecution, outcome: Outcome<ActionResult<WorkflowExecution>>, completedAt: string): (e: WorkflowExecution)
    ensures Completes(outcome) ==> e == outcome.value.data
    ensures !Completes(outcome) ==>
      e.status == Failed && e.completedAt == Some(completedAt) &&
      e.id == pending.id && e.accountId == pending.accountId && e.documentIds == pending.documentIds &&
      e.createdAt == pending.createdAt && e.result == pending.result
  {
    if Completes(outcome) then outcome.value.data
    else pending.(status := Failed, completedAt := Some(completedAt))
  }

  /** The executions handed to `onWorkflowComplete` for one settled run. */
  function Completions(outcome: Outcome<ActionResult<WorkflowExecution>>): (c: seq<WorkflowExecution>)
    ensures |c| <= 1
    ensures c != [] <==> Completes(outcome)
    ensures Completes(outcome) ==> c == [outcome.value.data]
  {
    if Completes(outcome) then [outcome.value.data] else []
  }

  /**
   * Against the real server action, a run ends completed exactly when the user
   * is signed in and the workflow returned a result; any other run ends failed,
   * and a completed run is the request echoed back.
   */
  lemma RunAgainstAction(
    now: nat, createdAt: string, completedAt: string, accountId: string, documentIds: seq<string>,
    auth: Outcome<AuthResponse>, execute: (string, seq<string>) -> Outcome<WorkflowResult>,
    serverNow: nat, serverCreatedAt: string, serverCompletedAt: string)
    requires !RunDisabled(accountId, documentIds, false)
    ensures var e := Settled(PendingExecution(now, accountId, documentIds, createdAt),
                             Returned(RunWorkflowAction(accountId, documentIds, auth, execute, serverNow, serverCreatedAt, serverCompletedAt)),
                             completedAt);
      (e.status == Completed <==> SignedInUser(auth).Returned? && execute(accountId, documentIds).Returned?) &&
      (e.status != Completed ==> e.status == Failed) &&
      e.accountId == accountId && e.documentIds == documentIds && e.completedAt.Some?
  {
  }

  class Runner {
    var selectedAccountId: string
    var selectedDocumentIds: seq<string>
    var isRunning: bool
    var execution: Option<WorkflowExecution>
    /** The executions passed to `onWorkflowComplete`, oldest first. */
    var completions: seq<WorkflowExecution>

    /** The selection never holds an id twice. */
    ghost predicate Valid()
      reads this
    {
      NoDuplicates(selectedDocumentIds)
    }

    constructor()
      ensures Valid()
      ensures selectedAccountId == "" && selectedDocumentIds == [] && !isRunning
      ensures execution.None? && completions == []
    {
      selectedAccountId := "";
      selectedDocumentIds := [];
      isRunning := false;
      execution := None;
      completions := [];
    }

    method HandleDocumentToggle(documentId: string)
      requires Valid()
      modifies this
      ensures Valid()
      ensures selectedDocumentIds == Toggle(old(selectedDocumentIds), documentId)
      ensures selectedAccountId == old(selectedAccountId) && isRunning == old(isRunning)
      ensures execution == old(execution) && completions == old(completions)
    {
      ToggleKeepsNoDuplicates(selectedDocumentIds, documentId);
      selectedDocumentIds := Toggle(selectedDocumentIds, documentId);
    }

    /** The account `<select>` changed: the document selection starts over. */
    method HandleAccountChange(accountId: string)
      modifies this
      ensures Valid()
      ensures selectedAccountId == accountId && selectedDocumentIds == []
      ensures isRunning == old(isRunning) && execution == old(execution) && completions == old(completions)
    {
      selectedAccountId := accountId;
      selectedDocumentIds := [];
    }

    /**
     * `runWorkflow` up to its `await`: nothing happens without an account and a
     * document; otherwise the run is marked in progress with a pending execution.
     */
    method BeginRun(now: nat, createdAt: string) returns (started: bool)
      modifies this
      ensures started <==> old(selectedAccountId) != "" && |old(selectedDocumentIds)| > 0
      ensures !started ==> unchanged(this)
      ensures started ==>
        isRunning &&
        execution == Some(PendingExecution(now, selectedAccountId, selectedDocumentIds, createdAt)) &&
        selectedAccountId == old(selectedAccountId) && selectedDocumentIds == old(selectedDocumentIds) &&
        completions == old(completions)
    {
      if selectedAccountId == "" || |selectedDocumentIds| == 0 {
        return false;
      }
      isRunning := true;
      execution := Some(PendingExecution(now, selectedAccountId, selectedDocumentIds, createdAt));
      started := true;
    }

    /** `runWorkflow` after its `await`, through `finally`. */
    method FinishRun(pending: WorkflowExecution, outcome: Outcome<ActionResult<WorkflowExecution>>, completedAt: string)
      modifies this
      ensures !isRunning
      ensures execution == Some(Settled(pending, outcome, completedAt))
      ensures completions == old(completions) + Completions(outcome)
      ensures selectedAccountId == old(selectedAccountId) && selectedDocumentIds == old(selectedDocumentIds)
    {
      if outcome.Returned? && outcome.value.Success? {
        execution := Some(outcome.value.data);
        completions := completions + [outcome.value.data];
      } else {
        execution := Some(pending.(status := Failed, completedAt := Some(completedAt)));
      }
      isRunning := false;
    }

    /**
     * The whole `runWorkflow`, with the server action as `run`: it is called
     * with the current selection, and the run always ends with `isRunning` false.
     */
    method RunWorkflow(
      now: nat, createdAt: string, completedAt: string,
      run: (string, seq<string>) -> Outcome<ActionResult<WorkflowExecution>>) returns (started: bool)
      modifies this
      ensures started <==> old(selectedAccountId) != "" && |old(selectedDocumentIds)| > 0
      ensures !started ==> unchanged(this)
      ensures started ==>
        !isRunning &&
        execution == Some(Settled(
          PendingExecution(now, old(selectedAccountId), old(selectedDocumentIds), createdAt),
          run(old(selectedAccountId), old(selectedDocumentIds)),
          completedAt)) &&
        completions == old(completions) + Completions(run(old(selectedAccountId), old(selectedDocumentIds)))
      ensures selectedAccountId == old(selectedAccountId) && selectedDocumentIds == old(selectedDocumentIds)
    {
      started := BeginRun(now, createdAt);
      if started {
        FinishRun(execution.value, run(selectedAccountId, selectedDocumentIds), completedAt);
      }
    }
  }
}
