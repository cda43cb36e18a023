/**
 * src/app/api/actions/accounts.actions.ts. The account service calls are
 * parameters of the actions (their database queries are not part of this
 * model), and so is the signed-in lookup; `revalidatePath` and the console
 * output have no effect on the results.
 */
module AccountsActions {
  import opened Common
  import opened Domain
  import opened Validations
  import opened ServerActions

  const FetchAccountsFallback: string := "Failed to fetch accounts"
  const CreateAccountFallback: string := "Failed to create account"
  const UpdateAccountFallback: string := "Failed to update account"
  const DeleteAccountFallback: string := "Failed to delete account"

  /** The row `createAccount` inserts; None is `null`. */
  datatype AccountInsert = AccountInsert(
    name: string,
    location: Option<string>,
    contactEmail: Option<string>,
    contactPhone: Option<string>,
    contactAddress: Option<string>)

  /** The partial row `updateAccount` writes; None is a key left out of the object. */
  datatype AccountUpdate = AccountUpdate(
    name: Option<string>,
    location: Option<string>,
    contactEmail: Option<string>,
    contactPhone: Option<string>,
    contactAddress: Option<string>)

  /** `getAccountsAction()`: the signed-in user's accounts with their documents. */
  function GetAccountsAction(
    auth: Outcome<AuthResponse>,
    fetch: string -> Outcome<seq<AccountWithDocuments>>): (r: ActionResult<seq<AccountWithDocuments>>)
    ensures r.Success? <==> SignedInUser(auth).Returned? && fetch(SignedInUser(auth).value).Returned?
    ensures r.Success? ==> r.data == fetch(SignedInUser(auth).value).value
    ensures SignedInUser(auth).Threw? ==> r == Failure(CaughtMessage(SignedInUser(auth).thrown, FetchAccountsFallback))
    ensures SignedInUser(auth).Returned? && fetch(SignedInUser(auth).value).Threw? ==>
      r == Failure(CaughtMessage(fetch(SignedInUser(auth).value).thrown, FetchAccountsFallback))
  {
    var attempt :=
      match SignedInUser(auth)
      case Threw(t) => Threw(t)
      case Returned(userId) => fetch(userId);
    Settle(attempt, FetchAccountsFallback)
  }

  /** The insert built from validated input: empty optional fields are stored as `null`. */
  function InsertFor(data: AccountInput): (row: AccountInsert)
    ensures row.name == data.name
    ensures row.location.Some? <==> Truthy(data.location)
    ensures row.contactEmail.Some? <==> Truthy(data.contactEmail)
    ensures row.contactPhone.Some? <==> Truthy(data.contactPhone)
    ensures row.contactAddress.Some? <==> Truthy(data.contactAddress)
    ensures row.location.Some? ==> row.location == data.location
    ensures row.contactEmail.Some? ==> row.contactEmail == data.contactEmail
    ensures row.contactPhone.Some? ==> row.contactPhone == data.contactPhone
    ensures row.contactAddress.Some? ==> row.contactAddress == data.contactAddress
  {
    AccountInsert(
      data.name,
      OrAbsent(data.location),
      OrAbsent(data.contactEmail),
      OrAbsent(data.contactPhone),
      OrAbsent(data.contactAddress))
  }

  /**
   * `createAccountAction(accountData)`: signed-in check, validation, then the
   * insert of the validated (trimmed) fields.
   */
  function CreateAccountAction(
    isEmail: string -> bool,
    auth: Outcome<AuthResponse>,
    accountData: AccountInput,
    create: (string, AccountInsert) -> Outcome<Account>): (r: ActionResult<Account>)
    ensures SignedInUser(auth).Threw? ==> r == Failure(CaughtMessage(SignedInUser(auth).thrown, CreateAccountFallback))
    ensures SignedInUser(auth).Returned? && ParseCreateAccount(isEmail, accountData).Invalid? ==>
      r == Failure(ValidationFailure(ParseCreateAccount(isEmail, accountData).issues))
    ensures r.Success? <==>
      SignedInUser(auth).Returned? && ParseCreateAccount(isEmail, accountData).Valid? &&
      create(SignedInUser(auth).value, InsertFor(ParseCreateAccount(isEmail, accountData).value)).Returned?
    ensures r.Success? ==>
      create(SignedInUser(auth).value, InsertFor(ParseCreateAccount(isEmail, accountData).value)) == Returned(r.data)
    ensures r.Success? ==> accountData.name != "" && ContactEmailOk(isEmail, accountData.contactEmail)
    ensures (SignedInUser(auth).Returned? && ParseCreateAccount(isEmail, accountData).Valid? &&
      create(SignedInUser(auth).value, InsertFor(ParseCreateAccount(isEmail, accountData).value)).Threw?) ==>
      r == Failure(CaughtMessage(
        create(SignedInUser(auth).value, InsertFor(ParseCreateAccount(isEmail, accountData).value)).thrown,
        CreateAccountFallback))
  {
    var attempt :=
      match SignedInUser(auth)
      case Threw(t) => Threw(t)
      case Returned(userId) =>
        match ParseCreateAccount(isEmail, accountData)
        case Invalid(issues) => Threw(ErrorValue(ValidationFailure(issues)))
        case Valid(data) => create(userId, InsertFor(data));
    Settle(attempt, CreateAccountFallback)
  }

  /**
   * The update built from validated input: the name only when it is non-empty
   * after trimming, every other field whenever it was given (even empty).
   */
  function UpdateFor(data: AccountPatch): (patch: AccountUpdate)
    ensures patch.name.Some? <==> Truthy(data.name)
    ensures patch.name.Some? ==> patch.name == data.name
    ensures patch.location == data.location && patch.contactEmail == data.contactEmail
    ensures patch.contactPhone == data.contactPhone && patch.contactAddress == data.contactAddress
  {
    AccountUpdate(
      if Truthy(data.name) then data.name else None,
      data.location,
      data.contactEmail,
      data.contactPhone,
      data.contactAddress)
  }

  /**
   * A non-empty name made only of whitespace passes validation, is trimmed to
   * "", and so is left out of the update: the stored name is kept.
   */
  lemma BlankNameNotUpdated(isEmail: string -> bool, updates: AccountPatch)
    requires updates.name.Some? && updates.name.value != ""
    requires forall k :: 0 <= k < |updates.name.value| ==> IsJsWhitespace(updates.name.value[k])
    requires ContactEmailOk(isEmail, updates.contactEmail)
    ensures ParseUpdateAccount(isEmail, updates).Valid?
    ensures UpdateFor(ParseUpdateAccount(isEmail, updates).value).name.None?
  {
    TrimBlank(updates.name.value);
  }

  /**
   * `updateAccountAction(accountId, updates)`; a failure that mentions a missing
   * or inaccessible row is reported as "Account not found".
   */
  function UpdateAccountAction(
    isEmail: string -> bool,
    auth: Outcome<AuthResponse>,
    accountId: string,
    updates: AccountPatch,
    update: (string, string, AccountUpdate) -> Outcome<Account>): (r: ActionResult<Account>)
    ensures SignedInUser(auth).Threw? ==>
      r == Failure(CollapseNotFound(CaughtMessage(SignedInUser(auth).thrown, UpdateAccountFallback), AccountNotFound))
    ensures SignedInUser(auth).Returned? && ParseUpdateAccount(isEmail, updates).Invalid? ==>
      r == Failure(CollapseNotFound(ValidationFailure(ParseUpdateAccount(isEmail, updates).issues), AccountNotFound))
    ensures r.Success? <==>
      SignedInUser(auth).Returned? && ParseUpdateAccount(isEmail, updates).Valid? &&
      update(SignedInUser(auth).value, accountId, UpdateFor(ParseUpdateAccount(isEmail, updates).value)).Returned?
    ensures r.Success? ==>
      r.data == update(SignedInUser(auth).value, accountId, UpdateFor(ParseUpdateAccount(isEmail, updates).value)).value
    ensures (SignedInUser(auth).Returned? && ParseUpdateAccount(isEmail, updates).Valid? &&
      update(SignedInUser(auth).value, accountId, UpdateFor(ParseUpdateAccount(isEmail, updates).value)).Threw?) ==>
      r == Failure(CollapseNotFound(CaughtMessage(
        update(SignedInUser(auth).value, accountId, UpdateFor(ParseUpdateAccount(isEmail, updates).value)).thrown,
        UpdateAccountFallback), AccountNotFound))
  {
    var attempt :=
      match SignedInUser(auth)
      case Threw(t) => Threw(t)
      case Returned(userId) =>
        match ParseUpdateAccount(isEmail, updates)
        case Invalid(issues) => Threw(ErrorValue(ValidationFailure(issues)))
        case Valid(data) => update(userId, accountId, UpdateFor(data));
    SettleCollapsing(attempt, UpdateAccountFallback, AccountNotFound)
  }

  /** `deleteAccountAction(accountId)`: `{ success: true }` once the row is gone. */
  function DeleteAccountAction(
    auth: Outcome<AuthResponse>,
    accountId: string,
    delete: (string, string) -> Outcome<()>): (r: ActionResult<()>)
    ensures r.Success? <==> SignedInUser(auth).Returned? && delete(SignedInUser(auth).value, accountId).Returned?
    ensures SignedInUser(auth).Threw? ==>
      r == Failure(CollapseNotFound(CaughtMessage(SignedInUser(auth).thrown, DeleteAccountFallback), AccountNotFound))
    ensures SignedInUser(auth).Returned? && delete(SignedInUser(auth).value, accountId).Threw? ==>
      r == Failure(CollapseNotFound(CaughtMessage(delete(SignedInUser(auth).value, accountId).thrown, DeleteAccountFallback), AccountNotFound))
  {
    var attempt :=
      match SignedInUser(auth)
      case Threw(t) => Threw(t)
      case Returned(userId) => delete(userId, accountId);
    SettleCollapsing(attempt, DeleteAccountFallback, AccountNotFound)
  }

  /** The service's "Account not found or access denied" reaches the client as "Account not found". */
  lemma DeleteMissingAccount(auth: Outcome<AuthResponse>, accountId: string, delete: (string, string) -> Outcome<()>)
    requires SignedInUser(auth).Returned?
    requires delete(SignedInUser(auth).value, accountId) == Threw(ErrorValue("Account" + MissingRowSuffix))
    ensures DeleteAccountAction(auth, accountId, delete) == Failure(AccountNotFound)
  {
    ServiceNotFoundCollapses("Account", AccountNotFound);
  }
}
