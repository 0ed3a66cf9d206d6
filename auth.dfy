/**
 * The credentials provider and the login predicates (app/_lib/auth.ts): the
 * chain of early returns that turns submitted credentials into a signed-in
 * user, and the two helpers that read the current user's id from a session.
 * The valibot `email()` check, the account lookup and the password hash are
 * parameters of the model.
 */
module Auth {
  import opened Wrappers
  import opened Accounts
  import opened AuthConfig

  /** `minLength(6)` in the password schema. */
  const MinPasswordLength: nat := 6
  /** The display name `authorize` gives every user. */
  const PlaceholderName: string := "hello????"

  /**
   * The credentials NextAuth hands to `authorize`. `None` stands for a field
   * that is absent or not a string; both fail the `string()` schema.
   */
  datatype Credentials = Credentials(email: Option<string>, password: Option<string>)

  /** The user object `authorize` returns on success. */
  datatype AuthUser = AuthUser(email: string, id: string, name: string)

  /**
   * `safeParse(object({ email: string([email()]), password: string([minLength(6)]) }), input)`,
   * with the email format check `isEmail` left uninterpreted.
   */
  function ParseCredentials(input: Credentials, isEmail: string -> bool): (r: Option<(string, string)>)
    ensures r.Some? <==>
      && input.email.Some? && input.password.Some?
      && isEmail(input.email.value) && |input.password.value| >= MinPasswordLength
    ensures r.Some? ==> r.value == (input.email.value, input.password.value)
  {
    match (input.email, input.password)
    case (Some(email), Some(password)) =>
      if isEmail(email) && |password| >= MinPasswordLength then Some((email, password)) else None
    case _ => None
  }

  /** The `authorize` callback of the credentials provider. */
  function Authorize(
    input: Credentials,
    isEmail: string -> bool,
    lookup: string -> Option<AccountWithPassword>,
    hash: Hash): (r: Option<AuthUser>)
    // A field that is absent or not a string fails the schema.
    ensures input.email.None? || input.password.None? ==> r == None
    ensures input.email.Some? && input.password.Some? ==>
      var email, password := input.email.value, input.password.value;
      var account := lookup(email);
      // An email not email-shaped or a password shorter than 6 fails the schema.
      && (!isEmail(email) || |password| < MinPasswordLength ==> r == None)
      // An email with no account is refused.
      && (account.None? ==> r == None)
      // A password whose salted hash differs from the stored one is refused.
      && (account.Some? && hash(password, account.value.passwordSalt) != account.value.passwordHash ==> r == None)
      // Every other request succeeds...
      && (r.Some? <==>
            isEmail(email) && |password| >= MinPasswordLength && account.Some? &&
            hash(password, account.value.passwordSalt) == account.value.passwordHash)
      // ...with the looked-up account's email and id.
      && (r.Some? ==> r.value == AuthUser(account.value.email, account.value.id, PlaceholderName))
  {
    match ParseCredentials(input, isEmail)
    case None => None
    case Some((email, password)) =>
      match lookup(email)
      case None => None
      case Some(account) =>
        if hash(password, account.passwordSalt) != account.passwordHash then None
        else Some(AuthUser(account.email, account.id, PlaceholderName))
  }

  /** Credentials that fail the schema are refused whatever the account table holds: no lookup happens. */
  lemma SchemaFailureSkipsLookup(
    input: Credentials,
    isEmail: string -> bool,
    lookup1: string -> Option<AccountWithPassword>,
    lookup2: string -> Option<AccountWithPassword>,
    hash: Hash)
    requires ParseCredentials(input, isEmail).None?
    ensures Authorize(input, isEmail, lookup1, hash) == Authorize(input, isEmail, lookup2, hash) == None
  {
  }

  /** `getCurrentUserId`: `session?.user?.id ?? null`, on the session `auth()` returned. */
  function CurrentUserId(session: Option<SessionData>): (r: Option<string>)
    ensures session.None? || session.value.user.None? || session.value.user.value.id.None? ==> r == None
    ensures r.Some? <==> HasUser(session) && session.value.user.value.id.Some?
    ensures r.Some? ==> r.value == session.value.user.value.id.value
  {
    match session
    case None => None
    case Some(s) =>
      match s.user
      case None => None
      case Some(user) => user.id
  }

  /** `isLoggedIn`: `!!(await getCurrentUserId())`; the empty string is falsy. */
  function IsLoggedIn(session: Option<SessionData>): (b: bool)
    ensures b <==> exists id :: CurrentUserId(session) == Some(id) && id != []
  {
    match CurrentUserId(session)
    case None => false
    case Some(id) => id != ""
  }

  /**
   * Being logged in for the pages is stronger than being logged in for the
   * middleware: the middleware only asks for a user object, the pages also
   * need a non-empty id. A session whose user has an empty id passes the
   * middleware but not `isLoggedIn`.
   */
  lemma LoggedInPagesVersusMiddleware()
    ensures forall s :: IsLoggedIn(s) ==> HasUser(s)
    ensures var s := Some(SessionData(Some(SessionUser(Some(""), None, None))));
      HasUser(s) && !IsLoggedIn(s)
  {
    var s := Some(SessionData(Some(SessionUser(Some(""), None, None))));
    assert CurrentUserId(s) == Some("");
  }

  /**
   * A session built by the `session` callback reports the token's subject as
   * the current user id, so the user is logged in exactly when the subject is
   * a non-empty string.
   */
  lemma SessionSubjectIsCurrentUser(s: SessionData, token: Token)
    requires s.user.Some?
    ensures CurrentUserId(Some(WithSubject(s, token))) == token.sub
    ensures IsLoggedIn(Some(WithSubject(s, token))) <==> token.sub.Some? && token.sub.value != ""
  {
  }

  /**
   * The sign-in that follows a sign-up: once an account was stored for
   * `email` with the salted hash of `password`, authorising the same
   * credentials against the table succeeds exactly when the password is long
   * enough and the email passes the format check, and yields the new account.
   */
  lemma AuthorizeAfterCreate(
    accounts: map<string, AccountWithPassword>,
    email: string, password: string, id: string, salt: string,
    isEmail: string -> bool, hash: Hash)
    ensures var stored := accounts[email := AccountWithPassword(id, email, hash(password, salt), salt)];
      var r := Authorize(Credentials(Some(email), Some(password)), isEmail, LookupIn(stored), hash);
      && (r.Some? <==> isEmail(email) && |password| >= MinPasswordLength)
      && (r.Some? ==> r.value == AuthUser(email, id, PlaceholderName))
  {
    var stored := accounts[email := AccountWithPassword(id, email, hash(password, salt), salt)];
    assert LookupIn(stored)(email) == Some(AccountWithPassword(id, email, hash(password, salt), salt));
  }
}
