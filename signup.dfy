/**
 * Server-side sign-up (app/signup/page.tsx): the `validate` step that turns
 * the submitted form into either the accepted credentials or per-field error
 * messages, and the action that creates the account only when validation
 * succeeded and then signs the new user in.
 */
module Signup {
  import opened Wrappers
  import opened Accounts
  import AuthConfig
  import Auth

  const EmailRequired: string := "Email is required."
  const EmailTaken: string := "An account with this email already exists"
  const PasswordRequired: string := "Password is required."
  const PasswordTooShort: string := "Password must be at least 6 characters."
  const MinPasswordLength: nat := 6

  /** A value of a `FormData` entry: a string or an uploaded file. */
  datatype FormEntry = Text(text: string) | FileEntry

  /** The two entries the sign-up form submits; `None` is an entry that is absent. */
  datatype FormData = FormData(email: Option<FormEntry>, password: Option<FormEntry>)

  /** `ValidationResult`: the accepted credentials, or the error messages that were set. */
  datatype ValidationResult =
    | Valid(email: string, password: string)
    | Invalid(emailError: Option<string>, passwordError: Option<string>)

  /** `String(formData.get(name) || "")`: an absent entry reads as "", a file as its string form. */
  function FieldText(entry: Option<FormEntry>): (s: string)
    // Exactly an absent entry and an empty string are falsy and read as "".
    ensures s == "" <==> entry.None? || entry == Some(Text(""))
    ensures entry.Some? && entry.value.Text? ==> s == entry.value.text
    ensures entry == Some(FileEntry) ==> s == "[object File]"
  {
    match entry
    case None => ""
    case Some(Text(s)) => s
    case Some(FileEntry) => "[object File]"
  }

  /**
   * What `validate` answers for the email and password it reads, when the
   * account-exists query would answer `taken` for that email.
   */
  function ValidationOf(email: string, password: string, taken: bool): (r: ValidationResult)
    // Valid exactly when no check fails; a valid result carries the inputs unchanged.
    ensures r.Valid? <==> email != "" && !taken && |password| >= MinPasswordLength
    ensures r.Valid? ==> r.email == email && r.password == password
    // Each field's error depends only on that field (and, for the email, the query).
    ensures r.Invalid? ==> (r.emailError == Some(EmailRequired) <==> email == "")
    ensures r.Invalid? ==> (r.emailError == Some(EmailTaken) <==> email != "" && taken)
    ensures r.Invalid? ==> (r.emailError == None <==> email != "" && !taken)
    ensures r.Invalid? ==> (r.passwordError == Some(PasswordRequired) <==> password == "")
    ensures r.Invalid? ==> (r.passwordError == Some(PasswordTooShort) <==> 0 < |password| < MinPasswordLength)
    ensures r.Invalid? ==> (r.passwordError == None <==> |password| >= MinPasswordLength)
  {
    var emailError :=
      if email == "" then Some(EmailRequired)
      else if taken then Some(EmailTaken)
      else None;
    var passwordError :=
      if password == "" then Some(PasswordRequired)
      else if |password| < MinPasswordLength then Some(PasswordTooShort)
      else None;
    if emailError.None? && passwordError.None? then Valid(email, password)
    else Invalid(emailError, passwordError)
  }

  /** The account-exists answer matters only for a non-empty email. */
  lemma QueryIgnoredForEmptyEmail(password: string)
    ensures ValidationOf("", password, true) == ValidationOf("", password, false)
  {
  }

  /** The two checks are independent: an empty email and a short password are reported together. */
  lemma BothErrorsReported(password: string, taken: bool)
    requires 0 < |password| < MinPasswordLength
    ensures ValidationOf("", password, taken) == Invalid(Some(EmailRequired), Some(PasswordTooShort))
  {
  }

  /**
   * `validate(formData)`: fills an error record field by field, asking the
   * account table whether the email is taken only when the email is
   * non-empty; the table's query log shows that exactly one such query, for
   * that email, happens then and none otherwise.
   */
  method Validate(form: FormData, store: AccountStore) returns (r: ValidationResult)
    modifies store
    ensures store.accounts == old(store.accounts)
    ensures store.existsQueries == old(store.existsQueries) +
      (if FieldText(form.email) == "" then [] else [FieldText(form.email)])
    ensures r == ValidationOf(FieldText(form.email), FieldText(form.password), FieldText(form.email) in store.accounts)
  {
    var email := FieldText(form.email);
    var password := FieldText(form.password);
    var errorResult := Invalid(None, None);

    if email == "" {
      errorResult := errorResult.(emailError := Some(EmailRequired));
    } else {
      var taken := store.AccountExists(email);
      if taken {
        errorResult := errorResult.(emailError := Some(EmailTaken));
      }
    }

    if password == "" {
      errorResult := errorResult.(passwordError := Some(PasswordRequired));
    } else if |password| < MinPasswordLength {
      errorResult := errorResult.(passwordError := Some(PasswordTooShort));
    }

    if errorResult.emailError.Some? || errorResult.passwordError.Some? {
      return errorResult;
    }
    r := Valid(email, password);
  }

  /** How `signupAction` ends. */
  datatype SignupOutcome =
    | Rejected(errors: ValidationResult)                // the form state shown again with its errors
    | SignedIn(user: Auth.AuthUser, location: string)   // account created, signed in, redirected
    | SignInFailed                                      // account created, but `signIn` threw

  /**
   * `signupAction`: validate, and only on success create the account, sign
   * in with the same credentials and redirect to "/home". Sign-in runs the
   * credentials provider's `authorize`, which also checks the email format;
   * validation does not, so an account can be created whose first sign-in
   * fails. `id` and `salt` are what the database and `randomBytes` generate.
   */
  method SignupAction(
    store: AccountStore, form: FormData,
    isEmail: string -> bool, hash: Hash, id: string, salt: string)
    returns (outcome: SignupOutcome)
    requires store.Valid()
    modifies store
    ensures store.Valid()
    ensures store.existsQueries == old(store.existsQueries) +
      (if FieldText(form.email) == "" then [] else [FieldText(form.email)])
    ensures var v := ValidationOf(FieldText(form.email), FieldText(form.password),
                                  FieldText(form.email) in old(store.accounts));
      if v.Invalid? then
        outcome == Rejected(v) && store.accounts == old(store.accounts)
      else
        && v.email !in old(store.accounts)
        && store.accounts == old(store.accounts)[v.email := AccountWithPassword(id, v.email, hash(v.password, salt), salt)]
        && (outcome.SignedIn? <==> isEmail(v.email))
        && (outcome.SignedIn? ==> outcome == SignedIn(Auth.AuthUser(v.email, id, Auth.PlaceholderName), AuthConfig.HomePage))
        && (!outcome.SignedIn? ==> outcome == SignInFailed)
  {
    var result := Validate(form, store);
    if !result.Valid? {
      return Rejected(result);
    }

    var email, password := result.email, result.password;
    var created := store.CreateAccount(email, password, id, salt, hash);
    assert created;

    Auth.AuthorizeAfterCreate(old(store.accounts), email, password, id, salt, isEmail, hash);
    var user := Auth.Authorize(Auth.Credentials(Some(email), Some(password)), isEmail, LookupIn(store.accounts), hash);
    match user
    case None =>
      outcome := SignInFailed;
    case Some(u) =>
      outcome := SignedIn(u, AuthConfig.HomePage);
  }
}
