/**
 * src/app/api/actions/documents.actions.ts. The document service calls and the
 * signed-in lookup are parameters of the actions; `revalidatePath` and the
 * console output have no effect on the results.
 */
module DocumentsActions {
  import opened Common
  import opened Domain
  import opened Validations
  import opened ServerActions

  const CreateDocumentFallback: string := "Failed to create document"
  const UpdateDocumentFallback: string := "Failed to update document"
  const DeleteDocumentFallback: string := "Failed to delete document"
  const FetchDocumentFallback: string := "Failed to fetch document"

  /** The row `createDocument` inserts; None is `null`. */
  datatype DocumentInsert = DocumentInsert(
    accountId: string,
    name: string,
    description: Option<string>,
    filePath: Option<string>,
    fileSize: Option<int>,
    fileType: Option<string>)

  /** The partial row `updateDocument` writes; None is a key left out of the object. */
  datatype DocumentUpdate = DocumentUpdate(
    name: Option<string>,
    description: Option<string>,
    filePath: Option<string>,
    fileSize: Option<int>,
    fileType: Option<string>)

  /** `size || null`: a missing or zero size is stored as `null`. */
  function SizeOrNull(size: Option<int>): (r: Option<int>)
    ensures r.Some? <==> size.Some? && size.value != 0
    ensures r.Some? ==> r == size
  {
    if size.Some? && size.value != 0 then size else None
  }

  /** The insert built from validated input: empty optional fields are stored as `null`. */
  function InsertFor(data: DocumentInput): (row: DocumentInsert)
    ensures row.accountId == data.accountId && row.name == data.name
    ensures row.description.Some? <==> Truthy(data.description)
    ensures row.filePath.Some? <==> Truthy(data.filePath)
    ensures row.fileType.Some? <==> Truthy(data.fileType)
    ensures row.description.Some? ==> row.description == data.description
    ensures row.filePath.Some? ==> row.filePath == data.filePath
    ensures row.fileType.Some? ==> row.fileType == data.fileType
    ensures FileSizeOk(data.fileSize) ==> row.fileSize == data.fileSize
  {
    DocumentInsert(
      data.accountId,
      data.name,
      OrAbsent(data.description),
      OrAbsent(data.filePath),
      SizeOrNull(data.fileSize),
      OrAbsent(data.fileType))
  }

  /**
   * `createDocumentAction(documentData)`: signed-in check, validation, then the
   * insert; a failure that mentions a missing or inaccessible row is reported
   * as "Account not found".
   */
  function CreateDocumentAction(
    auth: Outcome<AuthResponse>,
    documentData: DocumentInput,
    create: (string, DocumentInsert) -> Outcome<Document>): (r: ActionResult<Document>)
    ensures SignedInUser(auth).Threw? ==>
      r == Failure(CollapseNotFound(CaughtMessage(SignedInUser(auth).thrown, CreateDocumentFallback), AccountNotFound))
    ensures SignedInUser(auth).Returned? && ParseCreateDocument(documentData).Invalid? ==>
      r == Failure(CollapseNotFound(ValidationFailure(ParseCreateDocument(documentData).issues), AccountNotFound))
    ensures r.Success? <==>
      SignedInUser(auth).Returned? && ParseCreateDocument(documentData).Valid? &&
      create(SignedInUser(auth).value, InsertFor(ParseCreateDocument(documentData).value)).Returned?
    ensures r.Success? ==>
      r.data == create(SignedInUser(auth).value, InsertFor(ParseCreateDocument(documentData).value)).value &&
      documentData.accountId != "" && documentData.name != "" && FileSizeOk(documentData.fileSize)
    ensures (SignedInUser(auth).Returned? && ParseCreateDocument(documentData).Valid? &&
      create(SignedInUser(auth).value, InsertFor(ParseCreateDocument(documentData).value)).Threw?) ==>
      r == Failure(CollapseNotFound(CaughtMessage(
        create(SignedInUser(auth).value, InsertFor(ParseCreateDocument(documentData).value)).thrown,
        CreateDocumentFallback), AccountNotFound))
  {
    var attempt :=
      match SignedInUser(auth)
      case Threw(t) => Threw(t)
      case Returned(userId) =>
        match ParseCreateDocument(documentData)
        case Invalid(issues) => Threw(ErrorValue(ValidationFailure(issues)))
        case Valid(data) => create(userId, InsertFor(data));
    SettleCollapsing(attempt, CreateDocumentFallback, AccountNotFound)
  }

  /** The update built from validated input: the name only when non-empty, other fields whenever given. */
  function UpdateFor(data: DocumentPatch): (patch: DocumentUpdate)
    ensures patch.name.Some? <==> Truthy(data.name)
    ensures patch.name.Some? ==> patch.name == data.name
    ensures patch.description == data.description && patch.filePath == data.filePath
    ensures patch.fileSize == data.fileSize && patch.fileType == data.fileType
  {
    DocumentUpdate(
      if Truthy(data.name) then data.name else None,
      data.description,
      data.filePath,
      data.fileSize,
      data.fileType)
  }

  /** `updateDocumentAction(documentId, updates)`; missing rows are reported as "Document not found". */
  function UpdateDocumentAction(
    auth: Outcome<AuthResponse>,
    documentId: string,
    updates: DocumentPatch,
    update: (string, string, DocumentUpdate) -> Outcome<Document>): (r: ActionResult<Document>)
    ensures SignedInUser(auth).Threw? ==>
      r == Failure(CollapseNotFound(CaughtMessage(SignedInUser(auth).thrown, UpdateDocumentFallback), DocumentNotFound))
    ensures SignedInUser(auth).Returned? && ParseUpdateDocument(updates).Invalid? ==>
      r == Failure(CollapseNotFound(ValidationFailure(ParseUpdateDocument(updates).issues), DocumentNotFound))
    ensures r.Success? <==>
      SignedInUser(auth).Returned? && ParseUpdateDocument(updates).Valid? &&
      update(SignedInUser(auth).value, documentId, UpdateFor(ParseUpdateDocument(updates).value)).Returned?
    ensures r.Success? ==>
      r.data == update(SignedInUser(auth).value, documentId, UpdateFor(ParseUpdateDocument(updates).value)).value
    ensures (SignedInUser(auth).Returned? && ParseUpdateDocument(updates).Valid? &&
      update(SignedInUser(auth).value, documentId, UpdateFor(ParseUpdateDocument(updates).value)).Threw?) ==>
      r == Failure(CollapseNotFound(CaughtMessage(
        update(SignedInUser(auth).value, documentId, UpdateFor(ParseUpdateDocument(updates).value)).thrown,
        UpdateDocumentFallback), DocumentNotFound))
  {
    var attempt :=
      match SignedInUser(auth)
      case Threw(t) => Threw(t)
      case Returned(userId) =>
        match ParseUpdateDocument(updates)
        case Invalid(issues) => Threw(ErrorValue(ValidationFailure(issues)))
        case Valid(data) => update(userId, documentId, UpdateFor(data));
    SettleCollapsing(attempt, UpdateDocumentFallback, DocumentNotFound)
  }

  /** `deleteDocumentAction(documentId)`: `{ success: true }` once the row is gone. */
  function DeleteDocumentAction(
    auth: Outcome<AuthResponse>,
    documentId: string,
    delete: (string, string) -> Outcome<()>): (r: ActionResult<()>)
    ensures r.Success? <==> SignedInUser(auth).Returned? && delete(SignedInUser(auth).value, documentId).Returned?
    ensures SignedInUser(auth).Threw? ==>
      r == Failure(CollapseNotFound(CaughtMessage(SignedInUser(auth).thrown, DeleteDocumentFallback), DocumentNotFound))
    ensures SignedInUser(auth).Returned? && delete(SignedInUser(auth).value, documentId).Threw? ==>
      r == Failure(CollapseNotFound(CaughtMessage(delete(SignedInUser(auth).value, documentId).thrown, DeleteDocumentFallback), DocumentNotFound))
  {
    var attempt :=
      match SignedInUser(auth)
      case Threw(t) => Threw(t)
      case Returned(userId) => delete(userId, documentId);
    SettleCollapsing(attempt, DeleteDocumentFallback, DocumentNotFound)
  }

  /** `getDocumentAction(documentId)`: the document, if the signed-in user may see it. */
  function GetDocumentAction(
    auth: Outcome<AuthResponse>,
    documentId: string,
    fetch: (string, string) -> Outcome<Document>): (r: ActionResult<Document>)
    ensures r.Success? <==> SignedInUser(auth).Returned? && fetch(SignedInUser(auth).value, documentId).Returned?
    ensures r.Success? ==> r.data == fetch(SignedInUser(auth).value, documentId).value
    ensures SignedInUser(auth).Threw? ==>
      r == Failure(CollapseNotFound(CaughtMessage(SignedInUser(auth).thrown, FetchDocumentFallback), DocumentNotFound))
    ensures SignedInUser(auth).Returned? && fetch(SignedInUser(auth).value, documentId).Threw? ==>
      r == Failure(CollapseNotFound(CaughtMessage(fetch(SignedInUser(auth).value, documentId).thrown, FetchDocumentFallback), DocumentNotFound))
  {
    var attempt :=
      match SignedInUser(auth)
      case Threw(t) => Threw(t)
      case Returned(userId) => fetch(userId, documentId);
    SettleCollapsing(attempt, FetchDocumentFallback, DocumentNotFound)
  }
}
