# Vehicle-comparison admin panel: a Dafny model of its logic

The system is a Next.js admin panel. A signed-in user keeps **accounts**, each
with its uploaded PDF **documents**. For an account, the user runs a
**workflow** that compares the vehicle lists of two documents and shows the
result as two tables: one row per VIN, and field-level match details.

This project models the logic of that panel that does not depend on rendering:

- **Workflow results view.** It builds the de-duplicated VIN list, looks up the vehicle per VIN, defaults a missing status to `UNKNOWN`, picks badge colours and chooses the field-detail rows (`WorkflowResults`).
- **Running a workflow.**
  - The input check (`WorkflowServices`).
  - The `runWorkflowAction` server action (`WorkflowActions`).
  - The runner component: document toggling, account change, and `running → completed | failed` (`WorkflowRunner.Runner`).
- **Server actions for accounts and documents** (`AccountsActions`, `DocumentsActions`). Their shared pieces live in `ServerActions`:
  - the signed-in gate;
  - the `Validation failed: …` message;
  - the `catch` blocks, including the collapsing of "not found" / "access denied" errors.
- **Request schemas** of `src/lib/validations.ts` (`Validations`). Each schema is a function from the input to the issues zod reports, in zod's order.
- **Client state of the components** as classes whose handlers reassign their fields:
  - the accounts list (`AccountsList.AccountsList`);
  - an account card (`AccountCard.AccountCard`);
  - the file drop zone (`FileUpload.FileUpload`);
  - the login/sign-up form (`LoginForm.LoginForm`);
  - the new-account form (`CreateAccountForm.CreateAccountForm`).
- **The shared field-error loop** of the forms (`FormErrors`).
- **The class string and the `disabled` rule** of the shared button (`Button`).

Code outside the model is a parameter:

- Backend services, the auth provider, the upload action and the workflow run are parameters of type `Outcome<T>`: either `Returned(value)` or `Threw(thrown)`. Each is a function that settles that way, so "not called" means the result does not depend on it.
- The clock readings (`Date.now()`, ISO timestamps) and the email syntax check (`isEmail`) are parameters too.
- An `async` handler is split at its `await` into a `Begin…` method and a `Finish…` method, plus one method that runs both. This way the "in progress" state (`isRunning`, `loading`, `isDeletingDocument`) is a postcondition of its own.
- Callbacks the parent receives are append-only logs on the class: `completions`, `updates`, `uploaded`, `errors` and `submitted`.

Three behaviours of the code are worth stating up front, because the model keeps them as they are:

- `getVehicleByVin` uses `find`, so when several vehicles in a file share a VIN, the **first** of them is shown.
- No comparison algorithm exists. `executeWorkflow` waits and returns a fixed result, so `matchResult` and `subFieldsMatchResult` are inputs, not computed.
- The statuses and the detail rows are chosen by **position**, not by VIN:
  - `matchResult[index]` is read at the row's index in the VIN list;
  - the detail row `i` uses the vehicles at position `i` of the two files.

## Model

| member | source | states |
|---|---|---|
| Validations.Check | src/lib/validations.ts:4-5 | a check yields no issue exactly when it passes, otherwise the one issue on its field with its message |
| Validations.Messages | src/app/api/actions/accounts.actions.ts:55-57 | the messages of the issues, same length and same order |
| Validations.TrimStart | src/lib/validations.ts:20 | the result is a suffix of the input, everything cut is whitespace, and it does not start with whitespace |
| Validations.TrimEnd | src/lib/validations.ts:20 | the result is a prefix of the input, everything cut is whitespace, and it does not end with whitespace |
| Validations.TrimSpec | src/lib/validations.ts:20 | `.trim()` keeps a slice `s[i..j]` with only whitespace outside it and no whitespace at either end of what is kept |
| Validations.ParseLogin | src/lib/validations.ts:3-6 | accepted iff the email passes the email check and the password has at least 6 characters; the value is unchanged; each failed rule is reported with its message, and only those |
| Validations.ParseSignup | src/lib/validations.ts:8-17 | accepted iff the login rules hold and the passwords match; a mismatch is the last issue, "Passwords don't match" on `confirmPassword`; the field issues are reported as well |
| Validations.ParseCreateAccount | src/lib/validations.ts:19-31 | accepted iff the name is non-empty and the contact email is absent, empty or an email; the parsed name is trimmed; "Name is required" comes first and the email issue last |
| Validations.BlankNameParsesEmpty | src/lib/validations.ts:20 | the length check runs before the trim, so any non-empty name made only of whitespace, with an acceptable contact email, is accepted and parsed as "" |
| Validations.ParseUpdateAccount | src/lib/validations.ts:19-33 | every field is optional; a given name must be non-empty; the contact-email rule still applies; the empty patch is accepted unchanged |
| Validations.ParseCreateDocument | src/lib/validations.ts:35-42 | accepted iff account_id and name are non-empty and a given file_size is positive; the name is trimmed; the account_id issue comes first and the size issue last |
| Validations.ParseUpdateDocument | src/lib/validations.ts:35-46 | no account_id; every field is optional with the create rules; the empty patch is accepted unchanged |
| Validations.ParseUpload | src/lib/validations.ts:48-62 | accepted iff the type is `application/pdf`, the size is at most 10·1024·1024, the name is non-empty and account_id is non-empty; the type and size issues are reported exactly when those rules fail |
| ServerActions.SignedInUser | src/app/api/actions/accounts.actions.ts:15-22 | the user id iff the lookup returned no error and a user; a failed lookup throws "Unauthorized"; an exception passes through |
| ServerActions.ValidationFailure | src/app/api/actions/accounts.actions.ts:53-58 | the message is "Validation failed: " followed by the issue messages joined with ", " |
| ServerActions.SingleIssueFailure | src/app/api/actions/accounts.actions.ts:55-58 | one issue gives the prefix and its message, with no separator |
| ServerActions.CollapseNotFound | src/app/api/actions/accounts.actions.ts:129-139 | a message containing "not found" or "access denied" (as a substring) becomes the fixed message; any other is returned unchanged |
| ServerActions.CollapseNotFoundIdempotent | src/app/api/actions/accounts.actions.ts:132-137 | collapsing twice equals collapsing once, for any fixed message, including "Account not found" and "Document not found", which themselves contain a marker |
| ServerActions.ServiceNotFoundCollapses | src/app/api/services/accounts.services.ts:64 | the services' "… not found or access denied" error always becomes the fixed message |
| ServerActions.Settle | src/app/api/actions/accounts.actions.ts:26-33 | success with the value iff the `try` block returned; otherwise the Error's message, or the action's fallback for a non-Error value |
| ServerActions.SettleCollapsing | src/app/api/actions/accounts.actions.ts:158-171 | like Settle, with the error message collapsed |
| WorkflowServices.ValidateWorkflowInputs | src/app/api/services/workflow.services.ts:13-26 | valid iff both an account and at least one document are given, and then without an error; the account error is reported first |
| WorkflowActions.ExecutionId | src/app/api/actions/workflow.actions.ts:33 | "workflow-" followed by decimal digits that denote `now` |
| WorkflowActions.RunWorkflowAction | src/app/api/actions/workflow.actions.ts:9-49 | the gate's error, then the input check's message (the run is not used), then the run's error; success iff signed in, inputs valid and the run returned; on success a completed record echoing accountId and documentIds, with the result and a completedAt |
| AccountsActions.GetAccountsAction | src/app/api/actions/accounts.actions.ts:13-34 | success with the user's accounts iff signed in and the fetch returned; errors are passed on without collapsing |
| AccountsActions.InsertFor | src/app/api/actions/accounts.actions.ts:61-67 | the name as validated; each optional field is stored as given when truthy and as null otherwise |
| AccountsActions.CreateAccountAction | src/app/api/actions/accounts.actions.ts:36-79 | the gate's error, then the validation message, then the insert's error, none of them collapsed; success iff signed in, the input valid and the insert returned, and then the row the insert returned for the validated input |
| AccountsActions.UpdateFor | src/app/api/actions/accounts.actions.ts:109-123 | the name only when truthy; every other field whenever it was given, even empty |
| AccountsActions.BlankNameNotUpdated | src/app/api/actions/accounts.actions.ts:101-110 | any non-empty name made only of whitespace, with an acceptable contact email, passes validation but is left out of the update payload, so the stored name is kept |
| AccountsActions.UpdateAccountAction | src/app/api/actions/accounts.actions.ts:81-141 | success iff signed in, valid and the update returned; every error, including the gate's and the validation message, goes through the "Account not found" collapsing |
| AccountsActions.DeleteAccountAction | src/app/api/actions/accounts.actions.ts:143-172 | success (no data) iff signed in and the delete returned; errors collapsed to "Account not found" |
| AccountsActions.DeleteMissingAccount | src/app/api/actions/accounts.actions.ts:154-167 | deleting a missing or foreign account yields exactly "Account not found" |
| DocumentsActions.SizeOrNull | src/app/api/actions/documents.actions.ts:44 | a missing or zero file size is stored as null; any other size is kept |
| DocumentsActions.InsertFor | src/app/api/actions/documents.actions.ts:39-46 | account_id and name as validated; description, file_path and file_type as given when truthy, else null; a valid size is kept |
| DocumentsActions.CreateDocumentAction | src/app/api/actions/documents.actions.ts:13-64 | the gate, then validation, then insert; success iff all three pass; errors collapsed to "Account not found" |
| DocumentsActions.UpdateFor | src/app/api/actions/documents.actions.ts:94-108 | the name only when truthy; the other fields whenever given |
| DocumentsActions.UpdateDocumentAction | src/app/api/actions/documents.actions.ts:66-126 | success iff signed in, valid and the update returned; errors collapsed to "Document not found" |
| DocumentsActions.DeleteDocumentAction | src/app/api/actions/documents.actions.ts:128-157 | success iff signed in and the delete returned; errors collapsed to "Document not found", a non-Error throw gives "Failed to delete document" before collapsing |
| DocumentsActions.GetDocumentAction | src/app/api/actions/documents.actions.ts:159-186 | success with the document iff signed in and the fetch returned; errors collapsed to "Document not found" |
| WorkflowResults.Vins | src/components/WorkflowResults/WorkflowResults.tsx:8 | the VIN of each vehicle, position by position |
| WorkflowResults.DistinctSpec | src/components/WorkflowResults/WorkflowResults.tsx:8 | `Array.from(new Set(xs))` has exactly the values of `xs`, no repeats, in first-seen order |
| WorkflowResults.NonEmptyPositions | src/components/WorkflowResults/WorkflowResults.tsx:8-10 | `filter(Boolean)` takes elements at strictly increasing positions |
| WorkflowResults.NonEmptyKeepsOrder | src/components/WorkflowResults/WorkflowResults.tsx:8-10 | filtering a repeat-free, first-seen-ordered list keeps it repeat-free and in first-seen order |
| WorkflowResults.UniqueVinsSpec | src/components/WorkflowResults/WorkflowResults.tsx:7-10 | a VIN is listed iff it is non-empty and some vehicle of either file has it; no VIN twice; first-seen order over file 1 then file 2 |
| WorkflowResults.GetVehicleByVin | src/components/WorkflowResults/WorkflowResults.tsx:12-14 | nothing iff no vehicle has that VIN; otherwise the vehicle at the first position with it |
| WorkflowResults.GetMatchStatus | src/components/WorkflowResults/WorkflowResults.tsx:16-18 | `matchResult[index]` when in range and non-empty, otherwise "UNKNOWN" |
| WorkflowResults.Description | src/components/WorkflowResults/WorkflowResults.tsx:64-66 | vehicle 1's description if non-empty, else vehicle 2's, else "No description" |
| WorkflowResults.OverallBadge | src/components/WorkflowResults/WorkflowResults.tsx:72-76 | green iff "MATCH", red iff "DIFFERENCE", gray for anything else |
| WorkflowResults.RowsSpec | src/components/WorkflowResults/WorkflowResults.tsx:52-55 | one row per listed VIN; each row's VIN is found in at least one file, the vehicles shown carry that VIN, and the status is the one at the row's position |
| WorkflowResults.HasFieldDetails | src/components/WorkflowResults/WorkflowResults.tsx:161-163 | the detail section is shown iff some entry has a key |
| WorkflowResults.CellText | src/components/WorkflowResults/WorkflowResults.tsx:228 | the field's status when present and non-empty, otherwise "N/A" |
| WorkflowResults.CellBadge | src/components/WorkflowResults/WorkflowResults.tsx:218-226 | green iff MATCH, yellow iff NOT_FOUND, red iff DIFFERENCE, gray otherwise |
| WorkflowResults.DetailRowAt | src/components/WorkflowResults/WorkflowResults.tsx:203-231 | a row with the position's index and one cell per field of vin, description, vehicleCost, vehiclePremium, collisionDeductible, comprehensiveDeductible, each with its text and badge |
| WorkflowResults.EmittedFrom | src/components/WorkflowResults/WorkflowResults.tsx:196-201 | only positions whose row is drawn, in strictly increasing order |
| WorkflowResults.EmittedFromComplete | src/components/WorkflowResults/WorkflowResults.tsx:196-201 | every drawn position from the start on is listed |
| WorkflowResults.DetailRows | src/components/WorkflowResults/WorkflowResults.tsx:196-234 | one row per drawn position, built from the entry at that position |
| WorkflowResults.DetailRowsSpec | src/components/WorkflowResults/WorkflowResults.tsx:196-201 | a detail row for position i exists iff entry i is non-empty and either file has a vehicle at i; rows in increasing position order |
| WorkflowRunner.Toggle | src/components/WorkflowRunner/WorkflowRunner.tsx:20-26 | a selected id is removed and every other id keeps its membership; an unselected id is appended at the end |
| WorkflowRunner.ToggleRemoves | src/components/WorkflowRunner/WorkflowRunner.tsx:21-23 | in a repeat-free selection, removing cuts out exactly the id's position and keeps the order of the rest |
| WorkflowRunner.ToggleKeepsNoDuplicates | src/components/WorkflowRunner/WorkflowRunner.tsx:20-26 | toggling never creates a repeated id |
| WorkflowRunner.ToggleTwice | src/components/WorkflowRunner/WorkflowRunner.tsx:20-26 | toggling an unselected id twice restores the selection; a selected id ends up moved to the end |
| WorkflowRunner.EnabledRunIsValid | src/components/WorkflowRunner/WorkflowRunner.tsx:129-133 | an enabled run button only sends inputs the workflow check accepts; when idle, it is disabled iff the check rejects them |
| WorkflowRunner.PendingExecution | src/components/WorkflowRunner/WorkflowRunner.tsx:33-39 | a running record with the selection, no result and no completedAt |
| WorkflowRunner.Settled | src/components/WorkflowRunner/WorkflowRunner.tsx:49-68 | the server's record on success; otherwise the pending record marked failed with a completedAt, same id, account and documents |
| WorkflowRunner.Completions | src/components/WorkflowRunner/WorkflowRunner.tsx:49-52 | `onWorkflowComplete` fires once, with the server's record, iff the run completed |
| WorkflowRunner.RunAgainstAction | src/components/WorkflowRunner/WorkflowRunner.tsx:28-71 | against the real action, an enabled run ends completed iff the user is signed in and the workflow returned, failed otherwise; the request is echoed and a completedAt is set |
| WorkflowRunner.Runner.constructor | src/components/WorkflowRunner/WorkflowRunner.tsx:13-16 | no account, no documents, not running, no execution |
| WorkflowRunner.Runner.HandleDocumentToggle | src/components/WorkflowRunner/WorkflowRunner.tsx:20-26 | the selection becomes its toggle and stays free of repeats; nothing else changes |
| WorkflowRunner.Runner.HandleAccountChange | src/components/WorkflowRunner/WorkflowRunner.tsx:88-91 | the account is set and the document selection is cleared |
| WorkflowRunner.Runner.BeginRun | src/components/WorkflowRunner/WorkflowRunner.tsx:29-41 | nothing changes without an account or a document; otherwise running with the pending execution |
| WorkflowRunner.Runner.FinishRun | src/components/WorkflowRunner/WorkflowRunner.tsx:43-71 | not running afterwards on every outcome; the execution is settled and the completion logged on success |
| WorkflowRunner.Runner.RunWorkflow | src/components/WorkflowRunner/WorkflowRunner.tsx:28-72 | the action is called with the current selection; the run ends not running with the settled execution |
| AccountsList.NormalizeForCreate | src/components/AccountsList/AccountsList.tsx:27-33 | the name is sent as is; an optional field is sent when truthy and left out otherwise |
| AccountsList.NormalizeForCreateInvisible | src/components/AccountsList/AccountsList.tsx:27-33 | the server accepts the normalised form iff it accepts the raw one, and stores the same row |
| AccountsList.Prepend | src/components/AccountsList/AccountsList.tsx:36-49 | the new account, without documents, goes first and the old list follows |
| AccountsList.RemoveAccount | src/components/AccountsList/AccountsList.tsx:67 | `filter` never lengthens the list; what it keeps is stated by the lemmas below |
| AccountsList.RemoveAccountMembers | src/components/AccountsList/AccountsList.tsx:67 | the accounts kept are exactly those with another id |
| AccountsList.RemoveAccountAppend | src/components/AccountsList/AccountsList.tsx:67 | removal works piece by piece, so the order of the rest is kept |
| AccountsList.RemoveAccountAbsent | src/components/AccountsList/AccountsList.tsx:67 | removing an unknown id changes nothing |
| AccountsList.PrependThenRemove | src/components/AccountsList/AccountsList.tsx:36-67 | deleting a just-created account with a fresh id restores the list |
| AccountsList.ReplaceDocuments | src/components/AccountsList/AccountsList.tsx:78-84 | same length, same accounts in the same order; only the matching id gets the new documents |
| AccountsList.ReplaceDocumentsTwice | src/components/AccountsList/AccountsList.tsx:78-84 | a later update for the same account supersedes an earlier one |
| AccountsList.AccountsList.constructor | src/components/AccountsList/AccountsList.tsx:19-21 | the initial accounts, modal closed |
| AccountsList.AccountsList.HandleCreateAccount | src/components/AccountsList/AccountsList.tsx:24-59 | on success the created account is prepended and the modal closes; on any failure nothing changes |
| AccountsList.AccountsList.HandleDeleteAccount | src/components/AccountsList/AccountsList.tsx:61-76 | on success every account with the id is removed; otherwise the list is unchanged |
| AccountsList.AccountsList.HandleDocumentUpdate | src/components/AccountsList/AccountsList.tsx:78-84 | the list becomes the replaced one |
| AccountCard.FormatDate | src/components/AccountCard/AccountCard.tsx:12-19 | "N/A" for a missing or empty date, otherwise the localised date |
| AccountCard.Names | src/components/AccountCard/AccountCard.tsx:146-153 | the document names, position by position |
| AccountCard.PreviewOf | src/components/AccountCard/AccountCard.tsx:144-163 | a placeholder iff no documents; otherwise the first min(3, n) names, and "+(n-3) more..." iff n > 3 |
| AccountCard.MoreLabel | src/components/AccountCard/AccountCard.tsx:161 | "+", then decimal digits that denote `n`, then " more..." |
| AccountCard.PreviewAfterUpload | src/components/AccountCard/AccountCard.tsx:144-163 | once three documents are shown, an upload keeps the names and only the count of the rest grows |
| AccountCard.RemoveDocument | src/components/AccountCard/AccountCard.tsx:56-58 | `filter` never lengthens the list; what it keeps is stated by the lemmas below |
| AccountCard.RemoveDocumentMembers | src/components/AccountCard/AccountCard.tsx:56-58 | the documents kept are exactly those with another id |
| AccountCard.RemoveDocumentAppend | src/components/AccountCard/AccountCard.tsx:56-58 | removal works piece by piece, so the others keep their order |
| AccountCard.RemoveDocumentAbsent | src/components/AccountCard/AccountCard.tsx:56-58 | removing an unknown id changes nothing |
| AccountCard.UploadThenDelete | src/components/AccountCard/AccountCard.tsx:39-58 | deleting a just-uploaded document with a fresh id restores the list |
| AccountCard.DeleteErrorFor | src/components/AccountCard/AccountCard.tsx:61-66 | the server's error when non-empty, else "Failed to delete document"; a throw gives "Failed to delete document. Please try again." |
| AccountCard.AccountCard.constructor | src/components/AccountCard/AccountCard.tsx:27-33 | the account's documents, modal closed, not deleting, no errors |
| AccountCard.AccountCard.HandleUploadSuccess | src/components/AccountCard/AccountCard.tsx:39-44 | the document is appended, the parent gets that same list, the upload error is cleared |
| AccountCard.AccountCard.HandleUploadError | src/components/AccountCard/AccountCard.tsx:46-48 | the upload error is set; nothing else changes |
| AccountCard.AccountCard.BeginDeleteDocument | src/components/AccountCard/AccountCard.tsx:51-52 | deleting, and the delete error is cleared |
| AccountCard.AccountCard.FinishDeleteDocument | src/components/AccountCard/AccountCard.tsx:53-69 | not deleting afterwards; on success the documents with the id are removed and the parent is told; otherwise the list stays and the error is set |
| AccountCard.AccountCard.HandleDeleteDocument | src/components/AccountCard/AccountCard.tsx:50-70 | the whole handler: the above, with the delete error cleared on success |
| AccountCard.AccountCard.OpenModal | src/components/AccountCard/AccountCard.tsx:150 | the modal opens; nothing else changes |
| AccountCard.AccountCard.CloseModal | src/components/AccountCard/AccountCard.tsx:178-182 | the modal closes and both errors are cleared |
| FileUpload.PdfFilesMembers | src/components/FileUpload/FileUpload.tsx:31 | the files kept are exactly those of type `application/pdf` |
| FileUpload.PdfFilesAppend | src/components/FileUpload/FileUpload.tsx:30-38 | filtering works piece by piece, so the selection order is kept |
| FileUpload.PdfFilesKeepsPdfs | src/components/FileUpload/FileUpload.tsx:31 | a selection of PDFs only is kept whole |
| FileUpload.PdfFilesIdempotent | src/components/FileUpload/FileUpload.tsx:31 | filtering twice is filtering once |
| FileUpload.PdfFiles | src/components/FileUpload/FileUpload.tsx:31 | never more files than were given; which ones is stated by the lemmas above |
| FileUpload.UploadErrorFor | src/components/FileUpload/FileUpload.tsx:64-70 | the server's error when non-empty, else "Failed to upload file"; a throw gives "Failed to upload file. Please try again." |
| FileUpload.FileUpload.constructor | src/components/FileUpload/FileUpload.tsx:7-14 | not dragging, nothing started or reported |
| FileUpload.FileUpload.HandleDragOver | src/components/FileUpload/FileUpload.tsx:16-19 | the drag flag is set |
| FileUpload.FileUpload.HandleDragLeave | src/components/FileUpload/FileUpload.tsx:21-24 | the drag flag is cleared |
| FileUpload.FileUpload.UploadPdfs | src/components/FileUpload/FileUpload.tsx:31-38 | without a PDF, one "Please upload only PDF files" error and no upload; otherwise one upload per PDF, in order, and no error |
| FileUpload.FileUpload.HandleDrop | src/components/FileUpload/FileUpload.tsx:26-39 | the drag flag is cleared, then the files are handled as above |
| FileUpload.FileUpload.HandleFileSelect | src/components/FileUpload/FileUpload.tsx:41-51 | a missing file list counts as empty; then as above |
| FileUpload.FileUpload.HandleUploadResult | src/components/FileUpload/FileUpload.tsx:60-70 | exactly one callback: success with the document, or the error message |
| Button.VariantClasses | src/components/Button/Button.tsx:4-13 | a non-empty class string per variant |
| Button.SizeClasses | src/components/Button/Button.tsx:15-19 | a non-empty class string per size |
| Button.WithDefaults | src/components/Button/Button.tsx:24-29 | unset props are primary, md, not loading, not disabled, not full width, no extra classes; set props are kept |
| Button.WidthClasses | src/components/Button/Button.tsx:40 | "w-full" iff full width, otherwise empty |
| Button.JoinPresentParts | src/components/Button/Button.tsx:42-50 | joining the non-empty parts: an empty part adds neither itself nor a separator |
| Button.ClassNameClosedForm | src/components/Button/Button.tsx:42-50 | the class string is base, variant and size one space apart, then " w-full" and " " + className only when present |
| Button.Content | src/components/Button/Button.tsx:59-66 | while loading a string child gets "..." appended and any other child is unchanged; not loading, the child is unchanged |
| Button.Render | src/components/Button/Button.tsx:52-67 | disabled iff disabled or loading; the spinner iff loading; the class string and content as above |
| Button.DefaultButton | src/components/Button/Button.tsx:24-50 | a button with no props is enabled, shows no spinner, shows its child unchanged and has base, primary and md classes |
| Button.LoadingDisables | src/components/Button/Button.tsx:55 | a loading button is disabled whatever its `disabled` prop |
| Common.CaughtMessage | src/app/api/actions/accounts.actions.ts:30-31 | an Error's message, or the fallback for any other thrown value |
| Common.OrAbsent | src/components/CreateAccountForm/CreateAccountForm.tsx:39-42 | `s \|\| undefined`: present iff truthy, and then unchanged |
| Common.IncludesIff | src/app/api/actions/accounts.actions.ts:133-134 | `includes` holds iff the substring occurs at some position |
| Common.JoinSnoc | src/components/Button/Button.tsx:50 | joining one more part adds one separator and the part |
| Common.NonEmptyMembers | src/components/Button/Button.tsx:49 | `filter(Boolean)` keeps exactly the non-empty parts |
| Common.NonEmptyAppend | src/components/Button/Button.tsx:49 | `filter(Boolean)` works piece by piece, keeping order |
| Common.NonEmpty | src/components/Button/Button.tsx:49 | never more parts than were given; which ones is stated by the lemmas above |
| Common.NonEmptyKeepsAll | src/components/Button/Button.tsx:49 | parts that are all non-empty are kept whole |
| Common.WithoutMembers | src/components/WorkflowRunner/WorkflowRunner.tsx:23 | `filter((id) => id !== x)` keeps exactly the other ids |
| Common.Without | src/components/WorkflowRunner/WorkflowRunner.tsx:23 | never longer than the input; which ids are kept is stated by the lemmas beside it |
| Common.WithoutAppend | src/components/WorkflowRunner/WorkflowRunner.tsx:23 | removal works piece by piece, so the order of the rest is kept |
| Common.WithoutAbsent | src/components/WorkflowRunner/WorkflowRunner.tsx:23 | removing an id that is not selected changes nothing |
| Common.WithoutAt | src/components/WorkflowRunner/WorkflowRunner.tsx:23 | in a repeat-free list, removing the element at k cuts out position k |
| Common.NatToString | src/app/api/actions/workflow.actions.ts:33 | a non-empty string of decimal digits that denotes `n`, with no leading zero, and one digit exactly for numbers below 10 |
| FormErrors.CollectFieldErrors | src/components/LoginForm/LoginForm.tsx:47-52 | the `forEach` loop fills the dictionary that the fold `FieldErrors` describes |
| FormErrors.FieldErrorsSpec | src/components/LoginForm/LoginForm.tsx:47-52 | a field has an error iff some issue is filed under it, and the message shown is that of the last such issue |
| FormErrors.FieldErrorsEmpty | src/components/LoginForm/LoginForm.tsx:49 | issues without a field path give no error at all |
| FormErrors.FieldErrorsAfterCheck | src/components/LoginForm/LoginForm.tsx:48-51 | one more check files its message under its field exactly when it fails |
| FormErrors.ClearFieldError | src/components/LoginForm/LoginForm.tsx:98-100 | the same keys; the field's error becomes "" if shown; every other error is kept |
| LoginForm.FieldName | src/components/LoginForm/LoginForm.tsx:96 | the input names the handlers use |
| LoginForm.WithField | src/components/LoginForm/LoginForm.tsx:97 | only the named field takes the new value |
| LoginForm.Toggled | src/components/LoginForm/LoginForm.tsx:24 | the other mode |
| LoginForm.SubmitIssues | src/components/LoginForm/LoginForm.tsx:39-68 | no issue iff the email is valid, the password has 6 characters or more and, in sign-up mode only, the passwords match |
| LoginForm.SubmitIssuesInOrder | src/components/LoginForm/LoginForm.tsx:40-68 | login checks email then password; sign-up also checks the confirmation, last |
| LoginForm.CheckedFieldErrors | src/components/LoginForm/LoginForm.tsx:47-75 | the field errors of those checks: each failing rule puts its message under its field, and nothing else is shown |
| LoginForm.SubmitFieldErrors | src/components/LoginForm/LoginForm.tsx:45-76 | a rejected submit shows exactly the failing fields with their messages; the confirmation only in sign-up mode |
| LoginForm.AuthErrors | src/components/LoginForm/LoginForm.tsx:57-89 | no error iff the auth call reported none; otherwise exactly `{general: message}`, or "An unexpected error occurred" when it threw |
| LoginForm.LoginForm.constructor | src/components/LoginForm/LoginForm.tsx:14-21 | login mode, an empty form, no errors, not loading |
| LoginForm.LoginForm.HandleToggleMode | src/components/LoginForm/LoginForm.tsx:23-31 | the other mode, an empty form, no errors |
| LoginForm.LoginForm.HandleChange | src/components/LoginForm/LoginForm.tsx:95-101 | the field takes the value; its error is blanked if shown; other errors are kept |
| LoginForm.LoginForm.BeginSubmit | src/components/LoginForm/LoginForm.tsx:35-36 | errors cleared and loading |
| LoginForm.LoginForm.HandleSubmit | src/components/LoginForm/LoginForm.tsx:33-93 | a rejected form shows its field errors, with no redirect; otherwise the mode's auth call is made and the user is redirected iff it reports no error; never loading afterwards |
| CreateAccountForm.FieldName | src/components/CreateAccountForm/CreateAccountForm.tsx:25 | the input names the handler uses |
| CreateAccountForm.WithField | src/components/CreateAccountForm/CreateAccountForm.tsx:26 | only the named field takes the new value |
| CreateAccountForm.ToValidate | src/components/CreateAccountForm/CreateAccountForm.tsx:37-43 | the name as typed; an empty optional input is sent as absent, a typed one unchanged |
| CreateAccountForm.Validate | src/components/CreateAccountForm/CreateAccountForm.tsx:45 | accepted iff a name was typed and the contact email is empty or an email; the name is then trimmed |
| CreateAccountForm.RejectedFieldErrors | src/components/CreateAccountForm/CreateAccountForm.tsx:46-53 | a rejected form shows at least one error: "Name is required" iff the name is empty and the email message iff the contact email is invalid |
| CreateAccountForm.SubmittedIsNormalized | src/components/AccountsList/AccountsList.tsx:27-33 | the dashboard's normalisation leaves what the form submits unchanged |
| CreateAccountForm.CreateAccountForm.constructor | src/components/CreateAccountForm/CreateAccountForm.tsx:19-20 | the initial empty form, no errors |
| CreateAccountForm.CreateAccountForm.HandleChange | src/components/CreateAccountForm/CreateAccountForm.tsx:22-31 | only the named field changes; its error is blanked if shown |
| CreateAccountForm.CreateAccountForm.HandleSubmit | src/components/CreateAccountForm/CreateAccountForm.tsx:33-60 | a rejected form keeps its values, shows the field errors and does not call `onSubmit`; an accepted one clears the errors and calls `onSubmit` once with the parsed values, and the form is reset only if that call returned |

## Left out

- Rendering: markup, styling and icons. The pages, navbar, documents list, PDF viewer and modal are not part of this model.
- Side effects without a bearing on the state: `revalidatePath`, `console.error` and `alert`. The `window.location` redirect of the login form is the handler's `redirected` result.
- Locale date formatting: `FormatDate` takes the formatting as a parameter and models only the "N/A" case. `formatFileSize` is not part of this model.
- The backend: the account and document services, Supabase and the auth provider. Their outcomes are parameters, so row ownership, which those queries enforce, is not modelled.
- Email syntax: `isEmail` is a parameter. zod's regular expression is not part of this model.
- The workflow run: `executeWorkflow` waits two seconds and returns a fixed result, which is a parameter. No comparison of vehicles exists to model, so `matchResult` and `subFieldsMatchResult` are inputs.
- The upload action: `uploadDocumentAction` is imported by FileUpload.tsx but not defined in documents.actions.ts. `FileUpload.FileUpload.HandleUploadResult` takes its outcome, and the `FormData` it is sent is not modelled.
- Concurrency:
  - `useTransition`, the `isPending` flags and parallel uploads are not modelled.
  - Handlers run one after the other. So the stale `accounts` that the AccountsList handlers close over is not modelled.
  - In FileUpload, each started upload settles through a separate `HandleUploadResult` call.
- String lengths count `char`s (code points) rather than UTF-16 code units. A password or name with characters outside the Basic Multilingual Plane may measure differently.
- The entries of `subFieldsMatchResult` are taken as strings. The source types them as `Record<string, any>`; a boolean, number or object value, which the view would compare with the status names and render through `|| "N/A"`, is not represented.
- File sizes are integers. zod's `number` would also admit fractions and `NaN`.
- Timestamps and `Date.now()` are parameters.
- CreateAccountForm.CreateAccountForm.HandleSubmit: when `onSubmit` throws, React's unhandled rejection is not modelled. The model keeps the typed values and shows no error.
- Common.NonEmpty, Common.Without, AccountsList.RemoveAccount, AccountCard.RemoveDocument and FileUpload.PdfFiles: these filter functions' own `ensures` bound only the length. Which elements they keep is proved in the `…Members` lemmas beside them, and order is proved in the `…Append` lemmas.
- AccountsList modal: opening and closing the create-account modal is not modelled as methods; its flag is closed by a successful create.
- `handleDelete` of AccountCard only forwards the id to the list's `onDelete`. It is modelled by `AccountsList.AccountsList.HandleDeleteAccount`.
