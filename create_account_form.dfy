/**
 * src/components/CreateAccountForm/CreateAccountForm.tsx: the new-account
 * form. Its state is the `CreateAccountForm` class; `submitted` logs the
 * values passed to `onSubmit`, which is a parameter of the submit handler
 * that either resolves or throws.
 */
module CreateAccountForm {
  import opened Common
  import opened Validations
  import opened FormErrors
  import AccountsList

  /** The inputs of the form, named as the `name` attributes name them. */
  datatype FormField = Name | Location | ContactEmail | ContactPhone | ContactAddress

  /** Every input holds a string; an untouched one holds "". */
  datatype FormData = FormData(
    name: string, location: string, contactEmail: string, contactPhone: string, contactAddress: string)

  const InitialFormData: FormData := FormData("", "", "", "", "")

  function FieldName(field: FormField): (name: string)
    ensures name in {"name", "location", "contact_email", "contact_phone", "contact_address"}
  {
    match field
    case Name => "name"
    case Location => "location"
    case ContactEmail => "contact_email"
    case ContactPhone => "contact_phone"
    case ContactAddress => "contact_address"
  }

  /** `{ ...prev, [name]: value }` */
  function WithField(data: FormData, field: FormField, value: string): (r: FormData)
    ensures field == Name ==> r == data.(name := value)
    ensures field == Location ==> r == data.(location := value)
    ensures field == ContactEmail ==> r == data.(contactEmail := value)
    ensures field == ContactPhone ==> r == data.(contactPhone := value)
    ensures field == ContactAddress ==> r == data.(contactAddress := value)
  {
    match field
    case Name => data.(name := value)
    case Location => data.(location := value)
    case ContactEmail => data.(contactEmail := value)
    case ContactPhone => data.(contactPhone := value)
    case ContactAddress => data.(contactAddress := value)
  }

  /** `dataToValidate`: an empty optional input is sent as absent; the name is sent as typed. */
  function ToValidate(data: FormData): (a: AccountInput)
    ensures a.name == data.name
    ensures a.location.None? <==> data.location == ""
    ensures a.contactEmail.None? <==> data.contactEmail == ""
    ensures a.contactPhone.None? <==> data.contactPhone == ""
    ensures a.contactAddress.None? <==> data.contactAddress == ""
    ensures a.location.Some? ==> a.location.value == data.location
    ensures a.contactEmail.Some? ==> a.contactEmail.value == data.contactEmail
    ensures a.contactPhone.Some? ==> a.contactPhone.value == data.contactPhone
    ensures a.contactAddress.Some? ==> a.contactAddress.value == data.contactAddress
  {
    AccountInput(
      data.name,
      OrAbsent(Some(data.location)),
      OrAbsent(Some(data.contactEmail)),
      OrAbsent(Some(data.contactPhone)),
      OrAbsent(Some(data.contactAddress)))
  }

  /**
   * `createAccountSchema.safeParse(dataToValidate)`: the form is accepted
   * exactly when a name was typed and the contact email is empty or an email;
   * the name is then trimmed.
   */
  function Validate(isEmail: string -> bool, data: FormData): (p: Parsed<AccountInput>)
    ensures p.Valid? <==> data.name != "" && (data.contactEmail == "" || isEmail(data.contactEmail))
    ensures p.Valid? ==> p.value == ToValidate(data).(name := Trim(data.name))
  {
    ParseCreateAccount(isEmail, ToValidate(data))
  }

  /**
   * The field errors of a rejected form: "Name is required" on an empty name,
   * the email message on a contact email that is neither empty nor an email,
   * and nothing else.
   */
  lemma RejectedFieldErrors(isEmail: string -> bool, data: FormData)
    requires Validate(isEmail, data).Invalid?
    ensures var e := FieldErrors(Validate(isEmail, data).issues);
      e.Keys <= {"name", "contact_email"} && e != map[] &&
      ("name" in e <==> data.name == "") &&
      ("contact_email" in e <==> data.contactEmail != "" && !isEmail(data.contactEmail)) &&
      ("name" in e ==> e["name"] == NameRequired) &&
      ("contact_email" in e ==> e["contact_email"] == InvalidEmail)
  {
    var a := ToValidate(data);
    var nameOk, emailOk := |a.name| >= 1, ContactEmailOk(isEmail, a.contactEmail);
    var first := Check(nameOk, "name", NameRequired);
    assert [] + first == first;
    FieldErrorsAfterCheck([], nameOk, "name", NameRequired);
    FieldErrorsAfterCheck(first, emailOk, "contact_email", InvalidEmail);
    var e := FieldErrors(Validate(isEmail, data).issues);
    assert "name" in e || "contact_email" in e;
  }

  /** The dashboard normalises the submitted values again; on what this form sends that changes nothing. */
  lemma SubmittedIsNormalized(isEmail: string -> bool, data: FormData)
    requires Validate(isEmail, data).Valid?
    ensures AccountsList.NormalizeForCreate(Validate(isEmail, data).value) == Validate(isEmail, data).value
  {
  }

  class CreateAccountForm {
    var formData: FormData
    var errors: map<string, string>
    /** The values passed to `onSubmit`, oldest first. */
    var submitted: seq<AccountInput>

    constructor()
      ensures formData == InitialFormData && errors == map[] && submitted == []
    {
      formData := InitialFormData;
      errors := map[];
      submitted := [];
    }

    /** `handleChange`: only the named input changes, and its error, if shown, is blanked. */
    method HandleChange(field: FormField, value: string)
      modifies this
      ensures formData == WithField(old(formData), field, value)
      ensures errors == ClearFieldError(old(errors), FieldName(field))
      ensures submitted == old(submitted)
    {
      formData := WithField(formData, field, value);
      var name := FieldName(field);
      if name in errors && errors[name] != "" {
        errors := errors[name := ""];
      }
    }

    /**
     * `handleSubmit`: a rejected form keeps its values and shows the field
     * errors, and `onSubmit` is not called; an accepted one is passed to
     * `onSubmit` once, as parsed, and once that resolves the form is reset.
     * If `onSubmit` throws, the typed values stay and no error is shown.
     */
    method HandleSubmit(isEmail: string -> bool, onSubmit: AccountInput -> Outcome<()>)
      modifies this
      ensures Validate(isEmail, old(formData)).Invalid? ==>
        errors == FieldErrors(Validate(isEmail, old(formData)).issues) &&
        formData == old(formData) && submitted == old(submitted)
      ensures Validate(isEmail, old(formData)).Valid? ==>
        var data := Validate(isEmail, old(formData)).value;
        submitted == old(submitted) + [data] && errors == map[] &&
        formData == (if onSubmit(data).Returned? then InitialFormData else old(formData))
    {
      errors := map[];
      var result := ParseCreateAccount(isEmail, ToValidate(formData));
      if result.Invalid? {
        errors := CollectFieldErrors(result.issues);
        return;
      }
      submitted := submitted + [result.value];
      var outcome := onSubmit(result.value);
      if outcome.Threw? {
        return;
      }
      formData := InitialFormData;
      errors := map[];
    }
  }
}
