/**
 * src/components/AccountsList/AccountsList.tsx: the dashboard's list of
 * accounts. The list transforms (prepend, remove by id, replace one
 * account's documents) are functions; the component's state is the
 * `AccountsList` class whose handlers reassign `accounts`. The server actions
 * are parameters of the handlers; the handlers run one after the other.
 */
module AccountsList {
  import opened Common
  import opened Domain
  import opened Validations
  import opened ServerActions
  import AccountsActions

  /** `value || undefined` on each optional field of the submitted form; the name is passed as is. */
  function NormalizeForCreate(data: AccountInput): (r: AccountInput)
    ensures r.name == data.name
    ensures r.location.Some? <==> Truthy(data.location)
    ensures r.contactEmail.Some? <==> Truthy(data.contactEmail)
    ensures r.contactPhone.Some? <==> Truthy(data.contactPhone)
    ensures r.contactAddress.Some? <==> Truthy(data.contactAddress)
    ensures r.location.Some? ==> r.location == data.location
    ensures r.contactEmail.Some? ==> r.contactEmail == data.contactEmail
    ensures r.contactPhone.Some? ==> r.contactPhone == data.contactPhone
    ensures r.contactAddress.Some? ==> r.contactAddress == data.contactAddress
  {
    AccountInput(
      data.name,
      OrAbsent(data.location),
      OrAbsent(data.contactEmail),
      OrAbsent(data.contactPhone),
      OrAbsent(data.contactAddress))
  }

  /**
   * The client's normalisation is invisible to the server: the request is
   * accepted exactly when the raw form would be, and the same row is stored.
   */
  lemma NormalizeForCreateInvisible(isEmail: string -> bool, data: AccountInput)
    ensures ParseCreateAccount(isEmail, NormalizeForCreate(data)).Valid? <==> ParseCreateAccount(isEmail, data).Valid?
    ensures ParseCreateAccount(isEmail, data).Valid? ==>
      AccountsActions.InsertFor(ParseCreateAccount(isEmail, NormalizeForCreate(data)).value) ==
      AccountsActions.InsertFor(ParseCreateAccount(isEmail, data).value)
  {
  }

  /** `[accountWithDocuments, ...accounts]`: the new account, with no documents, goes first. */
  function Prepend(accounts: seq<AccountWithDocuments>, account: Account): (r: seq<AccountWithDocuments>)
    ensures |r| == |accounts| + 1
    ensures r[0] == AccountWithDocuments(account, []) && r[1..] == accounts
  {
    [AccountWithDocuments(account, [])] + accounts
  }

  /** `accounts.filter((account) => account.id !== accountId)` */
  function RemoveAccount(accounts: seq<AccountWithDocuments>, accountId: string): (r: seq<AccountWithDocuments>)
    ensures |r| <= |accounts|
    decreases |accounts|
  {
    if accounts == [] then []
    else (if accounts[0].Id() == accountId then [] else [accounts[0]]) + RemoveAccount(accounts[1..], accountId)
  }

  /** `filter` keeps exactly the accounts with another id. */
  lemma {:induction false} RemoveAccountMembers(accounts: seq<AccountWithDocuments>, accountId: string)
    ensures forall a :: a in RemoveAccount(accounts, accountId) <==> a in accounts && a.Id() != accountId
    decreases |accounts|
  {
    if accounts != [] {
      RemoveAccountMembers(accounts[1..], accountId);
      assert accounts == [accounts[0]] + accounts[1..];
    }
  }

  lemma RemoveAccountCons(a: AccountWithDocuments, rest: seq<AccountWithDocuments>, accountId: string)
    ensures RemoveAccount([a] + rest, accountId) ==
      (if a.Id() == accountId then [] else [a]) + RemoveAccount(rest, accountId)
  {
    assert ([a] + rest)[1..] == rest;
  }

  /** Removal works piece by piece, so the remaining accounts keep their order. */
  lemma {:induction false} RemoveAccountAppend(a: seq<AccountWithDocuments>, b: seq<AccountWithDocuments>, accountId: string)
    ensures RemoveAccount(a + b, accountId) == RemoveAccount(a, accountId) + RemoveAccount(b, accountId)
    decreases |a|
  {
    if a == [] {
      assert a + b == b;
    } else {
      var first, rest := a[0], a[1..];
      assert a == [first] + rest;
      assert a + b == [first] + (rest + b);
      RemoveAccountCons(first, rest + b, accountId);
      RemoveAccountCons(first, rest, accountId);
      RemoveAccountAppend(rest, b, accountId);
    }
  }

  /** Removing an id no account has leaves the list as it was. */
  lemma {:induction false} RemoveAccountAbsent(accounts: seq<AccountWithDocuments>, accountId: string)
    requires forall a :: a in accounts ==> a.Id() != accountId
    ensures RemoveAccount(accounts, accountId) == accounts
    decreases |accounts|
  {
    if accounts != [] {
      RemoveAccountAbsent(accounts[1..], accountId);
    }
  }

  /** Deleting an account just created under a fresh id gives back the list from before. */
  lemma {:induction false} PrependThenRemove(accounts: seq<AccountWithDocuments>, account: Account)
    requires forall a :: a in accounts ==> a.Id() != account.id
    ensures RemoveAccount(Prepend(accounts, account), account.id) == accounts
  {
    RemoveAccountAppend([AccountWithDocuments(account, [])], accounts, account.id);
    RemoveAccountAbsent(accounts, account.id);
    assert [AccountWithDocuments(account, [])][1..] == [];
  }

  /** `accounts.map(...)`: the account with that id gets the new document list. */
  function ReplaceDocuments(accounts: seq<AccountWithDocuments>, accountId: string, documents: seq<Document>): (r: seq<AccountWithDocuments>)
    ensures |r| == |accounts|
    ensures forall i :: 0 <= i < |r| ==> r[i].account == accounts[i].account
    ensures forall i :: 0 <= i < |r| && accounts[i].Id() != accountId ==> r[i] == accounts[i]
    ensures forall i :: 0 <= i < |r| && accounts[i].Id() == accountId ==> r[i].documents == documents
  {
    seq(|accounts|, i requires 0 <= i < |accounts| =>
      if accounts[i].Id() == accountId then accounts[i].(documents := documents) else accounts[i])
  }

  /** A later document update for the same account supersedes an earlier one. */
  lemma ReplaceDocumentsTwice(accounts: seq<AccountWithDocuments>, accountId: string, first: seq<Document>, second: seq<Document>)
    ensures ReplaceDocuments(ReplaceDocuments(accounts, accountId, first), accountId, second) ==
            ReplaceDocuments(accounts, accountId, second)
  {
    var once := ReplaceDocuments(accounts, accountId, first);
    var lhs, rhs := ReplaceDocuments(once, accountId, second), ReplaceDocuments(accounts, accountId, second);
    forall i | 0 <= i < |accounts| ensures lhs[i] == rhs[i] {
      assert once[i].Id() == accounts[i].Id();
    }
  }

  /** Whether a server action came back with `success` (and, for a create, the new row). */
  predicate Succeeded<T>(outcome: Outcome<ActionResult<T>>) {
    outcome.Returned? && outcome.value.Success?
  }

  class AccountsList {
    var accounts: seq<AccountWithDocuments>
    var isCreateModalOpen: bool

    constructor(initialAccounts: seq<AccountWithDocuments>)
      ensures accounts == initialAccounts && !isCreateModalOpen
    {
      accounts := initialAccounts;
      isCreateModalOpen := false;
    }

    /**
     * `handleCreateAccount(data)`: the action is called with the normalised
     * form; on success the new account is prepended and the modal closes, on
     * any failure nothing changes.
     */
    method HandleCreateAccount(data: AccountInput, create: AccountInput -> Outcome<ActionResult<Account>>)
      modifies this
      ensures Succeeded(create(NormalizeForCreate(data))) ==>
        accounts == Prepend(old(accounts), create(NormalizeForCreate(data)).value.data) && !isCreateModalOpen
      ensures !Succeeded(create(NormalizeForCreate(data))) ==> unchanged(this)
    {
      var result := create(NormalizeForCreate(data));
      if result.Returned? && result.value.Success? {
        accounts := Prepend(accounts, result.value.data);
        isCreateModalOpen := false;
      }
    }

    /** `handleDeleteAccount(accountId)`: on success every account with that id is removed. */
    method HandleDeleteAccount(accountId: string, delete: string -> Outcome<ActionResult<()>>)
      modifies this
      ensures Succeeded(delete(accountId)) ==> accounts == RemoveAccount(old(accounts), accountId)
      ensures !Succeeded(delete(accountId)) ==> accounts == old(accounts)
      ensures isCreateModalOpen == old(isCreateModalOpen)
    {
      var result := delete(accountId);
      if result.Returned? && result.value.Success? {
        accounts := RemoveAccount(accounts, accountId);
      }
    }

    /** `handleDocumentUpdate(accountId, documents)`, called by an account card. */
    method HandleDocumentUpdate(accountId: string, documents: seq<Document>)
      modifies this
      ensures accounts == ReplaceDocuments(old(accounts), accountId, documents)
      ensures isCreateModalOpen == old(isCreateModalOpen)
    {
      accounts := ReplaceDocuments(accounts, accountId, documents);
    }
  }
}
