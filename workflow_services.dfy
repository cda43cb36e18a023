/**
 * src/app/api/services/workflow.services.ts: the input check of a workflow
 * run. The run itself (`executeWorkflow`) waits two seconds and returns a
 * fixed result; the model takes its outcome as a parameter of the action.
 */
module WorkflowServices {
  import opened Common

  const AccountIdRequiredMessage: string := "Account ID is required"
  const NoDocumentsMessage: string := "At least one document must be selected"

  /** `{ valid, error? }` */
  datatype Validation = Validation(valid: bool, error: Option<string>)

  /**
   * `validateWorkflowInputs`: an account must be chosen, then at least one
   * document; the account is checked first.
   */
  function ValidateWorkflowInputs(accountId: string, documentIds: seq<string>): (v: Validation)
    ensures v.valid <==> accountId != "" && |documentIds| > 0
    ensures v.valid <==> v.error.None?
    ensures accountId == "" ==> v.error == Some(AccountIdRequiredMessage)
    ensures accountId != "" && documentIds == [] ==> v.error == Some(NoDocumentsMessage)
  {
    if accountId == "" then Validation(false, Some(AccountIdRequiredMessage))
    else if |documentIds| == 0 then Validation(false, Some(NoDocumentsMessage))
    else Validation(true, None)
  }
}
