/**
 * The records the application passes around: vehicles and workflow results
 * (src/types/workflow.ts) and the account and document rows of the hosted
 * database (src/types/database.ts). A nullable column is an `Option`.
 */
module Domain {
  import opened Common

  /** One vehicle entry of a compared source file; only `vehiclePremium` may be missing. */
  datatype Vehicle = Vehicle(
    vin: string,
    garageZip: string,
    description: string,
    vehicleCost: string,
    vehiclePremium: Option<string>,
    collisionDeductible: string,
    comprehensiveDeductible: string)

  /**
   * What a workflow run produced. `matchResult` and `subFieldsMatchResult` come
   * from outside the application (a static fixture today); the application
   * only displays them. A field-detail entry maps a field name to its status text.
   */
  datatype WorkflowResult = WorkflowResult(
    summary: string,
    fileName1: string,
    fileName2: string,
    matchResult: seq<string>,
    subFieldsMatchResult: seq<map<string, string>>,
    rawList1: seq<Vehicle>,
    rawList2: seq<Vehicle>)

  datatype ExecutionStatus = Running | Completed | Failed

  datatype WorkflowExecution = WorkflowExecution(
    id: string,
    accountId: string,
    documentIds: seq<string>,
    status: ExecutionStatus,
    result: Option<WorkflowResult>,
    createdAt: string,
    completedAt: Option<string>)

  /** A row of the `accounts` table. */
  datatype Account = Account(
    id: string,
    userId: string,
    name: string,
    location: Option<string>,
    contactEmail: Option<string>,
    contactPhone: Option<string>,
    contactAddress: Option<string>,
    createdAt: Option<string>,
    updatedAt: Option<string>)

  /** A row of the `documents` table; sizes are whole numbers of bytes. */
  datatype Document = Document(
    id: string,
    accountId: string,
    name: string,
    description: Option<string>,
    filePath: Option<string>,
    fileSize: Option<int>,
    fileType: Option<string>,
    createdAt: Option<string>,
    updatedAt: Option<string>)

  /** An account row together with its documents, as the dashboard lists it. */
  datatype AccountWithDocuments = AccountWithDocuments(account: Account, documents: seq<Document>) {
    function Id(): string { account.id }
  }

  /** A file picked or dropped in the browser: its name, MIME type and size in bytes. */
  datatype File = File(name: string, fileType: string, size: nat)
}
