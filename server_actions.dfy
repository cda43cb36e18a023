/**
 * What every server action shares: the signed-in check at its start, the
 * `{ success, data } | { success, error }` value it returns, the message it
 * builds from failed validation, and the `catch` block that turns a thrown
 * value into an error message (optionally collapsing "not found" and
 * "access denied" messages into one fixed text).
 */
module ServerActions {
  import opened Common
  import opened Validations

  /** The value a server action resolves to. */
  datatype ActionResult<+T> = Success(data: T) | Failure(error: string)

  /** The signed-in user, as far as the actions use it: its id. */
  datatype AuthUser = AuthUser(id: string)

  /** `{ data: { user }, error }` from `auth.getServerUser()`; `failed` is a truthy `error`. */
  datatype AuthResponse = AuthResponse(user: Option<AuthUser>, failed: bool)

  const UnauthorizedMessage: string := "Unauthorized"
  const ValidationFailedPrefix: string := "Validation failed: "
  const NotFoundMarker: string := "not found"
  const AccessDeniedMarker: string := "access denied"
  /** What the account and document services throw for a row that is missing or not the user's. */
  const MissingRowSuffix: string := " not found or access denied"
  /** The fixed messages the account and document actions report for a missing row. */
  const AccountNotFound: string := "Account not found"
  const DocumentNotFound: string := "Document not found"

  /**
   * The first step of every action: the id of the signed-in user, or what the
   * action throws instead (the lookup's own exception, or `Error("Unauthorized")`).
   */
  function SignedInUser(auth: Outcome<AuthResponse>): (r: Outcome<string>)
    ensures r.Returned? <==> auth.Returned? && !auth.value.failed && auth.value.user.Some?
    ensures r.Returned? ==> r.value == auth.value.user.value.id
    ensures auth.Threw? ==> r == Threw(auth.thrown)
    ensures auth.Returned? && !r.Returned? ==> r == Threw(ErrorValue(UnauthorizedMessage))
  {
    match auth
    case Threw(t) => Threw(t)
    case Returned(response) =>
      if response.failed || response.user.None? then Threw(ErrorValue(UnauthorizedMessage))
      else Returned(response.user.value.id)
  }

  /** `Validation failed: ${messages.join(", ")}` */
  function ValidationFailure(issues: seq<Issue>): (message: string)
    ensures |message| >= |ValidationFailedPrefix|
    ensures message[..|ValidationFailedPrefix|] == ValidationFailedPrefix
    ensures message[|ValidationFailedPrefix|..] == Join(Messages(issues), ", ")
  {
    ValidationFailedPrefix + Join(Messages(issues), ", ")
  }

  /** The message a single failed check produces, with no separator. */
  lemma SingleIssueFailure(issue: Issue)
    ensures ValidationFailure([issue]) == ValidationFailedPrefix + issue.message
  {
    assert Messages([issue]) == [issue.message];
  }

  /**
   * The `catch` blocks of the account and document actions that map a missing
   * row to a fixed message: any message mentioning "not found" or
   * "access denied" becomes `notFound`; any other is kept.
   */
  function CollapseNotFound(message: string, notFound: string): (r: string)
    ensures (exists i :: OccursAt(message, NotFoundMarker, i)) || (exists i :: OccursAt(message, AccessDeniedMarker, i))
      ==> r == notFound
    ensures !(exists i :: OccursAt(message, NotFoundMarker, i)) && !(exists i :: OccursAt(message, AccessDeniedMarker, i))
      ==> r == message
  {
    IncludesIff(message, NotFoundMarker);
    IncludesIff(message, AccessDeniedMarker);
    if Includes(message, NotFoundMarker) || Includes(message, AccessDeniedMarker) then notFound else message
  }

  /**
   * Collapsing is idempotent: a collapsed message is collapsed again to itself,
   * whether or not the fixed message carries a marker (both "Account not found"
   * and "Document not found" do).
   */
  lemma CollapseNotFoundIdempotent(message: string, notFound: string)
    ensures CollapseNotFound(CollapseNotFound(message, notFound), notFound) == CollapseNotFound(message, notFound)
  {
  }

  /** The services' own "missing row" error is reported as the fixed message. */
  lemma ServiceNotFoundCollapses(entity: string, notFound: string)
    ensures CollapseNotFound(entity + MissingRowSuffix, notFound) == notFound
  {
    var m := entity + MissingRowSuffix;
    var head, rest := entity + " ", " or " + AccessDeniedMarker;
    assert m == head + NotFoundMarker + rest;
    assert (head + NotFoundMarker + rest)[|head|..|head| + |NotFoundMarker|] == NotFoundMarker;
    assert OccursAt(m, NotFoundMarker, |head|);
  }

  /** The plain `catch` block: an action's result from how its `try` block settled. */
  function Settle<T>(attempt: Outcome<T>, fallback: string): (r: ActionResult<T>)
    ensures r.Success? <==> attempt.Returned?
    ensures attempt.Returned? ==> r.data == attempt.value
    ensures attempt.Threw? ==> r.error == CaughtMessage(attempt.thrown, fallback)
  {
    match attempt
    case Returned(v) => Success(v)
    case Threw(t) => Failure(CaughtMessage(t, fallback))
  }

  /** The collapsing `catch` block. */
  function SettleCollapsing<T>(attempt: Outcome<T>, fallback: string, notFound: string): (r: ActionResult<T>)
    ensures r.Success? <==> attempt.Returned?
    ensures attempt.Returned? ==> r.data == attempt.value
    ensures attempt.Threw? ==> r.error == CollapseNotFound(CaughtMessage(attempt.thrown, fallback), notFound)
  {
    match attempt
    case Returned(v) => Success(v)
    case Threw(t) => Failure(CollapseNotFound(CaughtMessage(t, fallback), notFound))
  }
}
