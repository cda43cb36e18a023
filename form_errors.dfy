/**
 * The loop both forms run over a failed parse (LoginForm.tsx and
 * CreateAccountForm.tsx): each issue whose first path element is truthy is
 * filed under that element, and a later issue on the same field overwrites an
 * earlier one; issues without a path are skipped.
 */
module FormErrors {
  import opened Validations

  /** `if (error.path[0])`: the issue names a field. */
  predicate HasKey(issue: Issue) {
    |issue.path| > 0 && issue.path[0] != ""
  }

  predicate FiledUnder(issue: Issue, key: string) {
    HasKey(issue) && issue.path[0] == key
  }

  /** The dictionary after the loop has seen `issues`, one issue at a time. */
  function FieldErrors(issues: seq<Issue>): map<string, string>
    decreases |issues|
  {
    if issues == [] then map[]
    else
      var m := FieldErrors(issues[..|issues| - 1]);
      var last := issues[|issues| - 1];
      if HasKey(last) then m[last.path[0] := last.message] else m
  }

  /** `result.error.errors.forEach(...)` filling `fieldErrors` in place. */
  method CollectFieldErrors(issues: seq<Issue>) returns (fieldErrors: map<string, string>)
    ensures fieldErrors == FieldErrors(issues)
  {
    fieldErrors := map[];
    for i := 0 to |issues|
      invariant fieldErrors == FieldErrors(issues[..i])
    {
      var error := issues[i];
      assert issues[..i + 1][..i] == issues[..i];
      if |error.path| > 0 && error.path[0] != "" {
        fieldErrors := fieldErrors[error.path[0] := error.message];
      }
    }
    assert issues[..|issues|] == issues;
  }

  /**
   * A field has an error exactly when some issue is filed under it, and the
   * error shown is the message of the last such issue.
   */
  lemma {:induction false} FieldErrorsSpec(issues: seq<Issue>, key: string)
    ensures key in FieldErrors(issues) <==> exists i :: 0 <= i < |issues| && FiledUnder(issues[i], key)
    ensures key in FieldErrors(issues) ==>
      exists i :: 0 <= i < |issues| && FiledUnder(issues[i], key) &&
        FieldErrors(issues)[key] == issues[i].message &&
        forall j :: i < j < |issues| ==> !FiledUnder(issues[j], key)
    decreases |issues|
  {
    if issues != [] {
      var init, last := issues[..|issues| - 1], issues[|issues| - 1];
      FieldErrorsSpec(init, key);
      assert forall i :: 0 <= i < |init| ==> init[i] == issues[i];
      if !FiledUnder(last, key) && key in FieldErrors(init) {
        var i :| 0 <= i < |init| && FiledUnder(init[i], key) &&
          FieldErrors(init)[key] == init[i].message &&
          forall j :: i < j < |init| ==> !FiledUnder(init[j], key);
        assert forall j :: i < j < |issues| ==> !FiledUnder(issues[j], key);
      }
      if FiledUnder(last, key) {
        assert FiledUnder(issues[|issues| - 1], key);
      }
    }
  }

  /** No issue names a field, so no field error: the form shows nothing. */
  lemma {:induction false} FieldErrorsEmpty(issues: seq<Issue>)
    requires forall i :: 0 <= i < |issues| ==> !HasKey(issues[i])
    ensures FieldErrors(issues) == map[]
    decreases |issues|
  {
    if issues != [] {
      FieldErrorsEmpty(issues[..|issues| - 1]);
    }
  }

  /** One more check at the end of the list: a failing check files its message under its field. */
  lemma {:induction false} FieldErrorsAfterCheck(issues: seq<Issue>, ok: bool, field: string, message: string)
    requires field != ""
    ensures FieldErrors(issues + Check(ok, field, message)) ==
      if ok then FieldErrors(issues) else FieldErrors(issues)[field := message]
  {
    if ok {
      assert issues + Check(ok, field, message) == issues;
    } else {
      var all := issues + [Issue([field], message)];
      assert all[..|all| - 1] == issues;
    }
  }

  /**
   * `if (errors[name]) setErrors({ ...prev, [name]: "" })`: a field's error
   * shown is blanked when its input changes; no key is added or removed and
   * every other field keeps its error.
   */
  function ClearFieldError(errors: map<string, string>, key: string): (r: map<string, string>)
    ensures r.Keys == errors.Keys
    ensures key in r ==> r[key] == ""
    ensures forall k :: k in r && k != key ==> r[k] == errors[k]
  {
    if key in errors && errors[key] != "" then errors[key := ""] else errors
  }
}
