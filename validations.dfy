/**
 * The request schemas of src/lib/validations.ts as functions from the input to
 * the issues zod reports, in zod's order: fields in declaration order, the
 * checks of one field in declaration order, and an object-level refinement
 * after the fields (it still runs when a field check has failed). The email
 * syntax check is the parameter `isEmail`: its regular expression is not
 * part of this model.
 */
module Validations {
  import opened Common
  import opened Domain

  /** A zod issue: the path of the offending field and its message. */
  datatype Issue = Issue(path: seq<string>, message: string)

  /** What `safeParse` yields: the parsed value, or the issues found. */
  datatype Parsed<+T> = Valid(value: T) | Invalid(issues: seq<Issue>)

  const InvalidEmail: string := "Please enter a valid email address"
  const ShortPassword: string := "Password must be at least 6 characters"
  const PasswordsDiffer: string := "Passwords don't match"
  const NameRequired: string := "Name is required"
  const AccountIdRequired: string := "Account ID is required"
  const SizeNotPositive: string := "File size must be positive"
  const NotPdf: string := "Only PDF files are allowed"
  const TooLarge: string := "File size must be less than 10MB"
  const EmptyFileName: string := "File name cannot be empty"

  const PdfType: string := "application/pdf"
  const MinPasswordLength: nat := 6
  const MaxUploadSize: nat := 10 * 1024 * 1024

  /** One check on one field: no issue when it passes, one issue on that field otherwise. */
  function Check(ok: bool, field: string, message: string): (issues: seq<Issue>)
    ensures ok <==> issues == []
    ensures !ok ==> issues == [Issue([field], message)]
  {
    if ok then [] else [Issue([field], message)]
  }

  /** The messages of a list of issues, in order. */
  function Messages(issues: seq<Issue>): (ms: seq<string>)
    ensures |ms| == |issues|
    ensures forall i :: 0 <= i < |issues| ==> ms[i] == issues[i].message
  {
    seq(|issues|, i requires 0 <= i < |issues| => issues[i].message)
  }

  // ---------------------------------------------------------------------------
  // Trimming (`.trim()` on a string schema)

  /** The characters JavaScript's `String.prototype.trim` removes. */
  predicate IsJsWhitespace(c: char) {
    c == '\t' || c == '\n' || c == '\U{B}' || c == '\U{C}' || c == '\r' || c == ' ' ||
    c == '\U{A0}' || c == '\U{1680}' || ('\U{2000}' <= c <= '\U{200A}') ||
    c == '\U{2028}' || c == '\U{2029}' || c == '\U{202F}' || c == '\U{205F}' ||
    c == '\U{3000}' || c == '\U{FEFF}'
  }

  function TrimStart(s: string): (r: string)
    ensures |r| <= |s| && r == s[|s| - |r|..]
    ensures forall i :: 0 <= i < |s| - |r| ==> IsJsWhitespace(s[i])
    ensures r != "" ==> !IsJsWhitespace(r[0])
    decreases |s|
  {
    if s != [] && IsJsWhitespace(s[0]) then TrimStart(s[1..]) else s
  }

  function TrimEnd(s: string): (r: string)
    ensures |r| <= |s| && r == s[..|r|]
    ensures forall i :: |r| <= i < |s| ==> IsJsWhitespace(s[i])
    ensures r != "" ==> !IsJsWhitespace(r[|r| - 1])
    decreases |s|
  {
    if s != [] && IsJsWhitespace(s[|s| - 1]) then TrimEnd(s[..|s| - 1]) else s
  }

  /** `s.trim()` */
  function Trim(s: string): string {
    TrimEnd(TrimStart(s))
  }

  /** `s[i..j]` is what remains of `s` once whitespace is cut from both ends. */
  ghost predicate WhitespaceAround(s: string, i: int, j: int) {
    0 <= i <= j <= |s| &&
    (forall k :: 0 <= k < i ==> IsJsWhitespace(s[k])) &&
    (forall k :: j <= k < |s| ==> IsJsWhitespace(s[k]))
  }

  /** Where the slice that trimming keeps starts and ends. */
  lemma TrimBounds(s: string) returns (i: nat, j: nat)
    ensures WhitespaceAround(s, i, j) && Trim(s) == s[i..j]
  {
    var t := TrimStart(s);
    i := |s| - |t|;
    var j' := TrimEndBound(s, i);
    j := j';
  }

  /** Trimming the end of the suffix `s[i..]` leaves `s[i..j]`, with only whitespace after `j`. */
  lemma TrimEndBound(s: string, i: nat) returns (j: nat)
    requires i <= |s|
    ensures i <= j <= |s| && TrimEnd(s[i..]) == s[i..j]
    ensures forall k :: j <= k < |s| ==> IsJsWhitespace(s[k])
  {
    var t := s[i..];
    var u := TrimEnd(t);
    j := i + |u|;
    assert u == t[..|u|];
    forall k | j <= k < |s| ensures IsJsWhitespace(s[k]) {
      assert s[k] == t[k - i];
    }
  }

  /** Trimming cuts a slice out of the string: only whitespace is removed, and none is left at either end. */
  lemma TrimSpec(s: string)
    ensures exists i, j :: WhitespaceAround(s, i, j) && Trim(s) == s[i..j]
    ensures Trim(s) != "" ==> !IsJsWhitespace(Trim(s)[0]) && !IsJsWhitespace(Trim(s)[|Trim(s)| - 1])
  {
    var i, j := TrimBounds(s);
    if Trim(s) != "" {
      assert Trim(s)[0] == TrimStart(s)[0];
    }
  }

  // ---------------------------------------------------------------------------
  // loginSchema and signupSchema

  datatype LoginData = LoginData(email: string, password: string)
  datatype SignupData = SignupData(email: string, password: string, confirmPassword: string)

  function LoginIssues(isEmail: string -> bool, email: string, password: string): seq<Issue> {
    Check(isEmail(email), "email", InvalidEmail) + Check(|password| >= MinPasswordLength, "password", ShortPassword)
  }

  /** `loginSchema.safeParse`: a valid email with a password of at least six characters. */
  function ParseLogin(isEmail: string -> bool, data: LoginData): (p: Parsed<LoginData>)
    ensures p.Valid? <==> isEmail(data.email) && |data.password| >= MinPasswordLength
    ensures p.Valid? ==> p.value == data
    ensures p.Invalid? ==> |p.issues| > 0 && forall i :: 0 <= i < |p.issues| ==>
      p.issues[i] in [Issue(["email"], InvalidEmail), Issue(["password"], ShortPassword)]
    ensures p.Invalid? ==> (Issue(["email"], InvalidEmail) in p.issues <==> !isEmail(data.email))
    ensures p.Invalid? ==> (Issue(["password"], ShortPassword) in p.issues <==> |data.password| < MinPasswordLength)
  {
    var issues := LoginIssues(isEmail, data.email, data.password);
    if issues == [] then Valid(data) else Invalid(issues)
  }

  /**
   * `signupSchema.safeParse`: the login rules plus matching passwords; the
   * mismatch is reported on `confirmPassword`, after the field issues.
   */
  function ParseSignup(isEmail: string -> bool, data: SignupData): (p: Parsed<SignupData>)
    ensures p.Valid? <==> isEmail(data.email) && |data.password| >= MinPasswordLength && data.password == data.confirmPassword
    ensures p.Valid? ==> p.value == data
    ensures data.password != data.confirmPassword ==>
      p.Invalid? && |p.issues| > 0 && p.issues[|p.issues| - 1] == Issue(["confirmPassword"], PasswordsDiffer)
    ensures p.Invalid? ==> |p.issues| > 0
    ensures p.Invalid? ==> (Issue(["email"], InvalidEmail) in p.issues <==> !isEmail(data.email))
    ensures p.Invalid? ==> (Issue(["password"], ShortPassword) in p.issues <==> |data.password| < MinPasswordLength)
  {
    var issues := LoginIssues(isEmail, data.email, data.password) +
                  Check(data.password == data.confirmPassword, "confirmPassword", PasswordsDiffer);
    if issues == [] then Valid(data) else Invalid(issues)
  }

  // ---------------------------------------------------------------------------
  // createAccountSchema and updateAccountSchema

  /** The fields of an account request; an absent optional field is None. */
  datatype AccountInput = AccountInput(
    name: string,
    location: Option<string>,
    contactEmail: Option<string>,
    contactPhone: Option<string>,
    contactAddress: Option<string>)

  /** `contact_email`: absent or empty is accepted, anything else must be an email. */
  predicate ContactEmailOk(isEmail: string -> bool, email: Option<string>) {
    email.None? || email.value == "" || isEmail(email.value)
  }

  function CreateAccountIssues(isEmail: string -> bool, a: AccountInput): seq<Issue> {
    Check(|a.name| >= 1, "name", NameRequired) +
    Check(ContactEmailOk(isEmail, a.contactEmail), "contact_email", InvalidEmail)
  }

  /**
   * `createAccountSchema.safeParse`. The length check on `name` runs before
   * the trim, so the parsed name is the trimmed input.
   */
  function ParseCreateAccount(isEmail: string -> bool, a: AccountInput): (p: Parsed<AccountInput>)
    ensures p.Valid? <==> a.name != "" && ContactEmailOk(isEmail, a.contactEmail)
    ensures p.Valid? ==> p.value == a.(name := Trim(a.name))
    ensures a.name == "" ==> p.Invalid? && |p.issues| > 0 && p.issues[0] == Issue(["name"], NameRequired)
    ensures !ContactEmailOk(isEmail, a.contactEmail) ==>
      p.Invalid? && |p.issues| > 0 && p.issues[|p.issues| - 1] == Issue(["contact_email"], InvalidEmail)
  {
    var issues := CreateAccountIssues(isEmail, a);
    if issues == [] then Valid(a.(name := Trim(a.name))) else Invalid(issues)
  }

  /** A string made only of whitespace trims to the empty string. */
  lemma TrimBlank(s: string)
    requires forall k :: 0 <= k < |s| ==> IsJsWhitespace(s[k])
    ensures Trim(s) == ""
  {
  }

  /**
   * A non-empty name made only of whitespace passes the length check, which
   * runs before the trim, and is parsed as the empty name.
   */
  lemma BlankNameParsesEmpty(isEmail: string -> bool, a: AccountInput)
    requires a.name != "" && forall k :: 0 <= k < |a.name| ==> IsJsWhitespace(a.name[k])
    requires ContactEmailOk(isEmail, a.contactEmail)
    ensures ParseCreateAccount(isEmail, a) == Valid(a.(name := ""))
  {
    TrimBlank(a.name);
  }

  /** `updateAccountSchema`: every field of the create schema, each optional. */
  datatype AccountPatch = AccountPatch(
    name: Option<string>,
    location: Option<string>,
    contactEmail: Option<string>,
    contactPhone: Option<string>,
    contactAddress: Option<string>)

  function ParseUpdateAccount(isEmail: string -> bool, u: AccountPatch): (p: Parsed<AccountPatch>)
    ensures p.Valid? <==> (u.name.None? || u.name.value != "") && ContactEmailOk(isEmail, u.contactEmail)
    ensures p.Valid? ==> p.value == u.(name := if u.name.Some? then Some(Trim(u.name.value)) else None)
    ensures u == AccountPatch(None, None, None, None, None) ==> p == Valid(u)
  {
    var issues := Check(u.name.None? || |u.name.value| >= 1, "name", NameRequired) +
                  Check(ContactEmailOk(isEmail, u.contactEmail), "contact_email", InvalidEmail);
    if issues == [] then Valid(u.(name := if u.name.Some? then Some(Trim(u.name.value)) else None))
    else Invalid(issues)
  }

  // ---------------------------------------------------------------------------
  // createDocumentSchema and updateDocumentSchema

  datatype DocumentInput = DocumentInput(
    accountId: string,
    name: string,
    description: Option<string>,
    filePath: Option<string>,
    fileSize: Option<int>,
    fileType: Option<string>)

  predicate FileSizeOk(size: Option<int>) {
    size.None? || size.value > 0
  }

  function ParseCreateDocument(d: DocumentInput): (p: Parsed<DocumentInput>)
    ensures p.Valid? <==> d.accountId != "" && d.name != "" && FileSizeOk(d.fileSize)
    ensures p.Valid? ==> p.value == d.(name := Trim(d.name))
    ensures d.accountId == "" ==> p.Invalid? && |p.issues| > 0 && p.issues[0] == Issue(["account_id"], AccountIdRequired)
    ensures !FileSizeOk(d.fileSize) ==> p.Invalid? && |p.issues| > 0 && p.issues[|p.issues| - 1] == Issue(["file_size"], SizeNotPositive)
  {
    var issues := Check(|d.accountId| >= 1, "account_id", AccountIdRequired) +
                  Check(|d.name| >= 1, "name", NameRequired) +
                  Check(FileSizeOk(d.fileSize), "file_size", SizeNotPositive);
    if issues == [] then Valid(d.(name := Trim(d.name))) else Invalid(issues)
  }

  /** `updateDocumentSchema`: the document fields without `account_id`, each optional. */
  datatype DocumentPatch = DocumentPatch(
    name: Option<string>,
    description: Option<string>,
    filePath: Option<string>,
    fileSize: Option<int>,
    fileType: Option<string>)

  function ParseUpdateDocument(u: DocumentPatch): (p: Parsed<DocumentPatch>)
    ensures p.Valid? <==> (u.name.None? || u.name.value != "") && FileSizeOk(u.fileSize)
    ensures p.Valid? ==> p.value == u.(name := if u.name.Some? then Some(Trim(u.name.value)) else None)
    ensures u == DocumentPatch(None, None, None, None, None) ==> p == Valid(u)
  {
    var issues := Check(u.name.None? || |u.name.value| >= 1, "name", NameRequired) +
                  Check(FileSizeOk(u.fileSize), "file_size", SizeNotPositive);
    if issues == [] then Valid(u.(name := if u.name.Some? then Some(Trim(u.name.value)) else None))
    else Invalid(issues)
  }

  // ---------------------------------------------------------------------------
  // fileUploadSchema

  datatype UploadInput = UploadInput(file: File, accountId: string, description: Option<string>)

  /**
   * `fileUploadSchema.safeParse`: the three refinements on the file all run
   * and report on `file`, then `account_id` is checked.
   */
  function ParseUpload(u: UploadInput): (p: Parsed<UploadInput>)
    ensures p.Valid? <==>
      u.file.fileType == PdfType && u.file.size <= MaxUploadSize && u.file.name != "" && u.accountId != ""
    ensures p.Valid? ==> p.value == u
    ensures p.Invalid? ==> (Issue(["file"], NotPdf) in p.issues <==> u.file.fileType != PdfType)
    ensures p.Invalid? ==> (Issue(["file"], TooLarge) in p.issues <==> u.file.size > MaxUploadSize)
  {
    var issues := Check(u.file.fileType == PdfType, "file", NotPdf) +
                  Check(u.file.size <= MaxUploadSize, "file", TooLarge) +
                  Check(|u.file.name| > 0, "file", EmptyFileName) +
                  Check(|u.accountId| >= 1, "account_id", AccountIdRequired);
    if issues == [] then Valid(u) else Invalid(issues)
  }
}
