/**
 * src/components/AccountCard/AccountCard.tsx: one account on the dashboard,
 * with its own copy of the account's documents. The component's state is the
 * `AccountCard` class; `updates` logs the document lists handed to
 * `onDocumentUpdate` (always for this card's account). The asynchronous
 * `handleDeleteDocument` is split at its `await` into `BeginDeleteDocument`
 * and `FinishDeleteDocument`.
 */
module AccountCard {
  import opened Common
  import opened Domain
  import opened ServerActions

  const NotAvailable: string := "N/A"
  const DeleteFallback: string := "Failed to delete document"
  const DeleteRetry: string := "Failed to delete document. Please try again."
  const PreviewSize: nat := 3
  const MoreSuffix: string := " more..."

  /**
   * `formatDate`: "N/A" for a missing or empty date, otherwise the date as the
   * browser's locale formatting (`localize`) renders it.
   */
  function FormatDate(date: Option<string>, localize: string -> string): (text: string)
    ensures !Truthy(date) ==> text == NotAvailable
    ensures Truthy(date) ==> text == localize(date.value)
  {
    if !Truthy(date) then NotAvailable else localize(date.value)
  }

  /** `+${n} more...`: the count of the documents not named in the preview. */
  function MoreLabel(n: nat): (text: string)
    ensures |text| > 1 + |MoreSuffix| && text[0] == '+'
    ensures text[|text| - |MoreSuffix|..] == MoreSuffix
    ensures forall k :: 1 <= k < |text| - |MoreSuffix| ==> '0' <= text[k] <= '9'
    ensures DecimalValue(text[1..|text| - |MoreSuffix|]) == n
  {
    var digits := NatToString(n);
    var text := "+" + digits + MoreSuffix;
    assert text[1..|text| - |MoreSuffix|] == digits;
    assert text[|text| - |MoreSuffix|..] == MoreSuffix;
    text
  }

  /** What the card shows of its documents: a placeholder, or up to three names and a count of the rest. */
  datatype Preview = NoDocuments | Listed(names: seq<string>, more: Option<string>)

  function Names(documents: seq<Document>): (names: seq<string>)
    ensures |names| == |documents|
    ensures forall i :: 0 <= i < |names| ==> names[i] == documents[i].name
  {
    seq(|documents|, i requires 0 <= i < |documents| => documents[i].name)
  }

  /** The document preview: `slice(0, 3)` of the names and `+${n - 3} more...` when there are more than three. */
  function PreviewOf(documents: seq<Document>): (p: Preview)
    ensures p.NoDocuments? <==> |documents| == 0
    ensures p.Listed? ==> |p.names| == if |documents| < PreviewSize then |documents| else PreviewSize
    ensures p.Listed? ==> forall i :: 0 <= i < |p.names| ==> p.names[i] == documents[i].name
    ensures p.Listed? ==> (p.more.Some? <==> |documents| > PreviewSize)
    ensures p.Listed? && p.more.Some? ==> p.more.value == MoreLabel(|documents| - PreviewSize)
  {
    if |documents| == 0 then NoDocuments
    else
      var shown := if |documents| < PreviewSize then documents else documents[..PreviewSize];
      Listed(Names(shown),
             if |documents| > PreviewSize then Some(MoreLabel(|documents| - PreviewSize)) else None)
  }

  /** With three documents or more, the preview names the first three. */
  lemma PreviewOfLong(documents: seq<Document>)
    requires |documents| >= PreviewSize
    ensures PreviewOf(documents).names == Names(documents[..PreviewSize])
  {
  }

  /** An upload keeps the first three documents of a list that already has three. */
  lemma FirstThreeKept(documents: seq<Document>, added: Document)
    requires |documents| >= PreviewSize
    ensures Names((documents + [added])[..PreviewSize]) == Names(documents[..PreviewSize])
  {
    assert (documents + [added])[..PreviewSize] == documents[..PreviewSize];
  }

  /** With more than three documents, the preview counts the rest. */
  lemma PreviewOfMore(documents: seq<Document>)
    requires |documents| > PreviewSize
    ensures PreviewOf(documents).more == Some(MoreLabel(|documents| - PreviewSize))
  {
  }

  /** Once three documents are shown, an upload changes only the count of the rest. */
  lemma PreviewAfterUpload(documents: seq<Document>, added: Document)
    requires |documents| >= PreviewSize
    ensures PreviewOf(documents + [added]).names == PreviewOf(documents).names
    ensures PreviewOf(documents + [added]).more == Some(MoreLabel(|documents| + 1 - PreviewSize))
  {
    var grown := documents + [added];
    FirstThreeKept(documents, added);
    PreviewOfLong(documents);
    PreviewOfLong(grown);
    PreviewOfMore(grown);
  }

  /** `localDocuments.filter((doc) => doc.id !== documentId)` */
  function RemoveDocument(documents: seq<Document>, documentId: string): (r: seq<Document>)
    ensures |r| <= |documents|
    decreases |documents|
  {
    if documents == [] then []
    else (if documents[0].id == documentId then [] else [documents[0]]) + RemoveDocument(documents[1..], documentId)
  }

  /** `filter` keeps exactly the documents with another id. */
  lemma {:induction false} RemoveDocumentMembers(documents: seq<Document>, documentId: string)
    ensures forall d :: d in RemoveDocument(documents, documentId) <==> d in documents && d.id != documentId
    decreases |documents|
  {
    if documents != [] {
      RemoveDocumentMembers(documents[1..], documentId);
      assert documents == [documents[0]] + documents[1..];
    }
  }

  lemma RemoveDocumentCons(d: Document, rest: seq<Document>, documentId: string)
    ensures RemoveDocument([d] + rest, documentId) ==
      (if d.id == documentId then [] else [d]) + RemoveDocument(rest, documentId)
  {
    assert ([d] + rest)[1..] == rest;
  }

  /** Removal works piece by piece, so the remaining documents keep their order. */
  lemma {:induction false} RemoveDocumentAppend(a: seq<Document>, b: seq<Document>, documentId: string)
    ensures RemoveDocument(a + b, documentId) == RemoveDocument(a, documentId) + RemoveDocument(b, documentId)
    decreases |a|
  {
    if a == [] {
      assert a + b == b;
    } else {
      var d, rest := a[0], a[1..];
      assert a == [d] + rest;
      assert a + b == [d] + (rest + b);
      RemoveDocumentCons(d, rest + b, documentId);
      RemoveDocumentCons(d, rest, documentId);
      RemoveDocumentAppend(rest, b, documentId);
    }
  }

  /** Removing an id no document has changes nothing. */
  lemma {:induction false} RemoveDocumentAbsent(documents: seq<Document>, documentId: string)
    requires forall d :: d in documents ==> d.id != documentId
    ensures RemoveDocument(documents, documentId) == documents
    decreases |documents|
  {
    if documents != [] {
      RemoveDocumentAbsent(documents[1..], documentId);
    }
  }

  /** Deleting a document just uploaded under a fresh id gives back the list from before the upload. */
  lemma {:induction false} UploadThenDelete(documents: seq<Document>, added: Document)
    requires forall d :: d in documents ==> d.id != added.id
    ensures RemoveDocument(documents + [added], added.id) == documents
  {
    RemoveDocumentAppend(documents, [added], added.id);
    RemoveDocumentAbsent(documents, added.id);
    assert [added][1..] == [];
  }

  /** The message shown after the delete action settled without success. */
  function DeleteErrorFor(outcome: Outcome<ActionResult<()>>): (message: string)
    requires !(outcome.Returned? && outcome.value.Success?)
    ensures outcome.Threw? ==> message == DeleteRetry
    ensures outcome.Returned? && outcome.value.error != "" ==> message == outcome.value.error
    ensures outcome.Returned? && outcome.value.error == "" ==> message == DeleteFallback
    ensures message != ""
  {
    if outcome.Threw? then DeleteRetry
    else if outcome.value.error != "" then outcome.value.error
    else DeleteFallback
  }

  class AccountCard {
    const accountId: string
    var isDocumentsModalOpen: bool
    var localDocuments: seq<Document>
    var isDeletingDocument: bool
    var uploadError: Option<string>
    var deleteError: Option<string>
    /** The lists passed to `onDocumentUpdate(accountId, ...)`, oldest first. */
    var updates: seq<seq<Document>>

    constructor(account: AccountWithDocuments)
      ensures accountId == account.Id() && localDocuments == account.documents
      ensures !isDocumentsModalOpen && !isDeletingDocument
      ensures uploadError.None? && deleteError.None? && updates == []
    {
      accountId := account.Id();
      isDocumentsModalOpen := false;
      localDocuments := account.documents;
      isDeletingDocument := false;
      uploadError := None;
      deleteError := None;
      updates := [];
    }

    /** The uploaded document goes last, the parent gets the new list, and the upload error is cleared. */
    method HandleUploadSuccess(newDocument: Document)
      modifies this
      ensures localDocuments == old(localDocuments) + [newDocument]
      ensures updates == old(updates) + [localDocuments]
      ensures uploadError.None?
      ensures deleteError == old(deleteError) && isDeletingDocument == old(isDeletingDocument)
      ensures isDocumentsModalOpen == old(isDocumentsModalOpen)
    {
      var updatedDocuments := localDocuments + [newDocument];
      localDocuments := updatedDocuments;
      updates := updates + [updatedDocuments];
      uploadError := None;
    }

    method HandleUploadError(error: string)
      modifies this
      ensures uploadError == Some(error)
      ensures localDocuments == old(localDocuments) && updates == old(updates)
      ensures deleteError == old(deleteError) && isDeletingDocument == old(isDeletingDocument)
      ensures isDocumentsModalOpen == old(isDocumentsModalOpen)
    {
      uploadError := Some(error);
    }

    /** `handleDeleteDocument` up to its `await`. */
    method BeginDeleteDocument()
      modifies this
      ensures isDeletingDocument && deleteError.None?
      ensures localDocuments == old(localDocuments) && updates == old(updates)
      ensures uploadError == old(uploadError) && isDocumentsModalOpen == old(isDocumentsModalOpen)
    {
      isDeletingDocument := true;
      deleteError := None;
    }

    /**
     * `handleDeleteDocument` after its `await`, through `finally`: on success the
     * documents with that id are removed and the parent is told; otherwise the
     * list stays and the error is shown.
     */
    method FinishDeleteDocument(documentId: string, outcome: Outcome<ActionResult<()>>)
      modifies this
      ensures !isDeletingDocument
      ensures outcome.Returned? && outcome.value.Success? ==>
        localDocuments == RemoveDocument(old(localDocuments), documentId) &&
        updates == old(updates) + [localDocuments] && deleteError == old(deleteError)
      ensures !(outcome.Returned? && outcome.value.Success?) ==>
        localDocuments == old(localDocuments) && updates == old(updates) &&
        deleteError == Some(DeleteErrorFor(outcome))
      ensures uploadError == old(uploadError) && isDocumentsModalOpen == old(isDocumentsModalOpen)
    {
      if outcome.Returned? && outcome.value.Success? {
        var updatedDocuments := RemoveDocument(localDocuments, documentId);
        localDocuments := updatedDocuments;
        updates := updates + [updatedDocuments];
      } else {
        deleteError := Some(DeleteErrorFor(outcome));
      }
      isDeletingDocument := false;
    }

    /** The whole `handleDeleteDocument`, with the server action as `delete`. */
    method HandleDeleteDocument(documentId: string, delete: string -> Outcome<ActionResult<()>>)
      modifies this
      ensures !isDeletingDocument
      ensures var outcome := delete(documentId);
        if outcome.Returned? && outcome.value.Success? then
          localDocuments == RemoveDocument(old(localDocuments), documentId) &&
          updates == old(updates) + [localDocuments] && deleteError.None?
        else
          localDocuments == old(localDocuments) && updates == old(updates) &&
          deleteError == Some(DeleteErrorFor(outcome))
      ensures uploadError == old(uploadError) && isDocumentsModalOpen == old(isDocumentsModalOpen)
    {
      BeginDeleteDocument();
      FinishDeleteDocument(documentId, delete(documentId));
    }

    method OpenModal()
      modifies this
      ensures isDocumentsModalOpen
      ensures localDocuments == old(localDocuments) && updates == old(updates)
      ensures uploadError == old(uploadError) && deleteError == old(deleteError)
      ensures isDeletingDocument == old(isDeletingDocument)
    {
      isDocumentsModalOpen := true;
    }

    /** Closing the documents modal clears both error messages. */
    method CloseModal()
      modifies this
      ensures !isDocumentsModalOpen && uploadError.None? && deleteError.None?
      ensures localDocuments == old(localDocuments) && updates == old(updates)
      ensures isDeletingDocument == old(isDeletingDocument)
    {
      isDocumentsModalOpen := false;
      uploadError := None;
      deleteError := None;
    }
  }
}
