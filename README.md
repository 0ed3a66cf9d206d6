# next-kanban-demo: sign-up, sign-in, route protection and optimistic board removal

A Dafny model of the decision logic in a small Next.js kanban application:

- **Sign-up** (`Signup`, app/signup/page.tsx). `validate` reads the email and password from the submitted form, then fills an error record field by field: a required check, then an "account exists" query or a length check. It answers with either the accepted credentials or the messages that were set. `signupAction` creates the account only when validation succeeded, signs the new user in with the same credentials and redirects to `/home`.
- **Route protection and session shaping** (`AuthConfig`, app/_lib/auth.config.ts). The middleware's `authorized` callback allows, denies or redirects to `/home`. The answer depends on whether the session has a user and whether the pathname is on the dashboard: equal to `/home`, or starting with `/board`. The `session` callback copies the token's subject into `session.user.id`.
- **Credentials and login predicates** (`Auth`, app/_lib/auth.ts). `authorize` is a chain of early returns: schema check, account lookup, salted-hash comparison. `getCurrentUserId` and `isLoggedIn` read the user id from a session.
- **Optimistic board removal** (`Boards`, app/home/_components/boards.tsx). The `useOptimistic` reducer filters the board list by id. The delete handler hides the board, then calls the server action.
- **The account table** (`Accounts`, app/_lib/db.ts). Only the three queries that the code above calls are modelled: does an account exist, fetch an account with its password row, create an account. The database, id and salt generation and the PBKDF2 hash enter as parameters.

External collaborators are parameters of the model:

- the valibot `email()` check is `isEmail: string -> bool`;
- `pbkdf2Sync(password, salt, 1000, 64, "sha256").toString("hex")` is `hash: (string, string) -> string`. Account creation and `authorize` use the same call parameters, so one function stands for both;
- `auth()` is the session value passed to `CurrentUserId` and `IsLoggedIn`;
- the generated account id and the random salt are arguments of `CreateAccount` and `SignupAction`.

Password length is the length of the character sequence. JavaScript counts UTF-16 code units; the model does not model encodings.

Two consequences of the code show up in the proofs:

- `LoggedInPagesVersusMiddleware`: the middleware counts a session as logged in when it has a user object. `isLoggedIn`, used by the pages, also needs a non-empty id.
- `SignupAction`: validation never checks the email's format, but the automatic sign-in does. So a valid sign-up always creates the account, and the sign-in that follows succeeds exactly when the email passes `isEmail`.

## Model

| member | source | states |
|---|---|---|
| `Signup.FieldText` | app/signup/page.tsx:66-67 | Reading a form entry falls back to "" for a falsy value: the text is "" exactly for an absent entry or an empty string. Any other string is kept as it is, and an uploaded file reads as "[object File]". |
| `Signup.ValidationOf` | app/signup/page.tsx:65-91 | The result is valid iff the email is non-empty, not already taken and the password has at least 6 characters. A valid result carries the input email and password unchanged. Otherwise emailError is "Email is required." iff the email is empty, "An account with this email already exists" iff it is non-empty and taken, and absent otherwise. passwordError is "Password is required." iff the password is empty, "Password must be at least 6 characters." iff it has 1 to 5 characters, and absent otherwise. |
| `Signup.QueryIgnoredForEmptyEmail` | app/signup/page.tsx:71-75 | For an empty email the account-exists answer does not affect the result. |
| `Signup.BothErrorsReported` | app/signup/page.tsx:69-84 | The email and password checks are independent. An empty email with a 1 to 5 character password reports both errors in one result. |
| `Signup.Validate` | app/signup/page.tsx:65-91 | The method fills the error record field by field and returns exactly `ValidationOf` of the form's email and password text, with `taken` being whether the table holds the email. The table's query log gains exactly one "exists" query, for that email, when the email text is non-empty, and none when it is empty. The table itself is unchanged. |
| `Signup.SignupAction` | app/signup/page.tsx:42-59 | For an invalid result, returns it with the account table unchanged. For a valid one, the email was not in the table and the table gains exactly one account: the email, the given id, the salt and hash(password, salt). The query log gains what `Validate` adds. The action then reports a signed-in user with that id and email, redirected to "/home", iff isEmail holds of the email; otherwise the sign-in fails. |
| `Accounts.LookupIn` | app/_lib/db.ts:31-36 | `findUnique` by email on a stored table: a row is found iff the email is a key, and the row found is the one filed under that email. |
| `Accounts.AccountStore.AccountExists` | app/_lib/db.ts:56-63 | True iff the table has an account with that email. The query is appended to the table's query log, and the rows are unchanged. |
| `Accounts.AccountStore.GetAccountWithPassword` | app/_lib/db.ts:28-54 | Null iff no account has the email; otherwise the stored account, whose email is the one asked for. |
| `Accounts.AccountStore.CreateAccount` | app/_lib/db.ts:65-80 | Creation succeeds iff the email is new. The new row stores hash(password, salt) and the salt. A duplicate email (a unique column) changes nothing. The one-row-per-email invariant is kept, and the query log is unchanged. |
| `AuthConfig.HasUser` | app/_lib/auth.config.ts:9 | `!!auth?.user`: true iff there is a session holding some user object, whatever the user's fields hold. |
| `AuthConfig.IsOnDashboard` | app/_lib/auth.config.ts:10-11 | True iff the pathname is exactly "/home", or is "/board" followed by any suffix. |
| `AuthConfig.Authorized` | app/_lib/auth.config.ts:8-19 | Allow iff being on the dashboard and having a session user agree (both or neither). Deny iff on the dashboard without a user. Redirect iff off the dashboard with a user, and the redirect goes to "/home". |
| `AuthConfig.NeverDeniedNeverRedirected` | app/_lib/auth.config.ts:12-18 | A session with a user is never denied; a session without one is never redirected. |
| `AuthConfig.NoRedirectLoop` | app/_lib/auth.config.ts:5-18 | The redirect target "/home" is allowed for the redirected user. The sign-in page "/login", where a denied user is sent, is allowed for that user. |
| `AuthConfig.DashboardPaths` | app/_lib/auth.config.ts:10-11 | Every path that starts with "/board" is on the dashboard, "/boardx" included. No proper extension of "/home" is. |
| `AuthConfig.WithSubject` | app/_lib/auth.config.ts:21 | The session's user id becomes the token subject; the user's email and name are unchanged. |
| `AuthConfig.SessionCallback` | app/_lib/auth.config.ts:20-23 | Writes the token subject into the user's id in place and returns the same session. The new session value is `WithSubject` of the old one. |
| `Auth.ParseCredentials` | app/_lib/auth.ts:21-29 | The valibot schema passes iff both fields are strings, the email passes the format check and the password has at least 6 characters. It then yields the email and password unchanged. |
| `Auth.Authorize` | app/_lib/auth.ts:20-52 | Null when a field is absent or not a string, the email fails the format check, the password has fewer than 6 characters, no account has the email, or hash(password, stored salt) differs from the stored hash. Success when all checks pass, returning the looked-up account's email and id with the name "hello????". |
| `Auth.SchemaFailureSkipsLookup` | app/_lib/auth.ts:21-29 | Credentials that fail the schema give null whatever the lookup function is, so no lookup affects the result. |
| `Auth.AuthorizeAfterCreate` | app/_lib/auth.ts:29-51 | After an account is stored with hash(password, salt), authorising the same credentials succeeds iff the email passes the format check and the password has at least 6 characters. On success it returns the new account's id and email. |
| `Auth.CurrentUserId` | app/_lib/auth.ts:61-64 | Null when the session, its user or the user's id is absent; otherwise the user's id, the empty string included. |
| `Auth.IsLoggedIn` | app/_lib/auth.ts:57-59 | True iff the current user id is present and non-empty. |
| `Auth.LoggedInPagesVersusMiddleware` | app/_lib/auth.ts:57-63 | Every session `isLoggedIn` accepts has a user, so the middleware accepts it too. A user with an empty id passes the middleware but not `isLoggedIn`. |
| `Auth.SessionSubjectIsCurrentUser` | app/_lib/auth.ts:61-64 | After the session callback, the current user id is the token subject. The user is logged in iff the subject is a non-empty string. |
| `Boards.RemoveBoard` | app/home/_components/boards.tsx:14-16 | A board is in the result iff it is in the input and its id differs from the removed id. So no board with that id remains. The result is no longer than the input. |
| `Boards.RemoveBoardConcat` | app/home/_components/boards.tsx:15 | Removing from a concatenation is the concatenation of the removals. |
| `Boards.KeepsOthersInOrder` | app/home/_components/boards.tsx:15 | A board with a different id is kept in its place: after the survivors of the boards before it and before the survivors of the boards after it. |
| `Boards.RemoveBoardSubsequence` | app/home/_components/boards.tsx:15 | The result is a subsequence of the input. Its length is the input length minus the number of boards with that id. |
| `Boards.RemoveAbsent` | app/home/_components/boards.tsx:15 | Removing an id that no board has leaves the list equal to the input. |
| `Boards.RemoveIdempotent` | app/home/_components/boards.tsx:15 | Removing the same id twice equals removing it once. |
| `Boards.RemoveCommutes` | app/home/_components/boards.tsx:14-16 | Two removals give the same list in either order. |
| `Boards.ApplyRemovals` | app/home/_components/boards.tsx:14-16 | The shown list holds exactly the confirmed boards whose id is not among the pending removals. |
| `Boards.ApplyRemovalsSnoc` | app/home/_components/boards.tsx:36 | Queuing one more removal applies the reducer once more to what was shown. |
| `Boards.ApplyRemovalsIdempotent` | app/home/_components/boards.tsx:14-16 | Applying the pending removals to a list they were already applied to changes nothing. So a refreshed list that already lacks the deleted boards is shown unchanged. |
| `Boards.ApplyRemovalsAbsent` | app/home/_components/boards.tsx:14-16 | Pending removals of ids no board carries change nothing. |
| `Boards.OptimisticBoards.constructor` | app/home/_components/boards.tsx:13-16 | With nothing pending, the shown list is the list passed in. |
| `Boards.OptimisticBoards.SubmitRemove` | app/home/_components/boards.tsx:32-39 | The board is hidden before the server action is called. The shown list becomes the reducer applied to the old one, and the history gains exactly "hidden id", then "action called with id" together with the list shown at the moment of the call. That list is the filtered one, so no board with the id is shown when the action runs. The invariant is kept: every call comes right after its board was hidden, and holds no board with its id. |
| `Boards.OptimisticBoards.Settle` | app/home/_components/boards.tsx:13-16 | When the transition ends, the pending removals are dropped and the freshly read list is shown as it is. |

## Left out

- Framework plumbing: the NextAuth setup, `signIn`'s own redirect handling, `redirect`, `revalidatePath`, `noStore` and middleware.ts. In `SignupAction`, `signIn` is taken to run the credentials provider's `authorize` on the submitted email and password. A null answer is the `SignInFailed` outcome, standing for the error `signIn` throws.
- The database (Prisma) and `tiny-invariant`/`taintUniqueValue` in app/_lib/db.ts. The account table is a map keyed by email. `getBoardsForUser`, `createBoard` and `deleteBoard` are not part of this model.
- PBKDF2 hashing, random salts and generated ids: the hash is an uninterpreted function, and the salt and id are parameters.
- The valibot `email()` format check: an uninterpreted predicate.
- React rendering, the forms and the links (signup-form.tsx, login-form.tsx, button.tsx, create-board-button.tsx, app/page.tsx and the JSX of the pages), tailwind.config.ts and next.config.js.
- The `createBoardAction` and `removeBoardAction` server actions in app/home/page.tsx. `removeBoardAction` is declared with a number id but receives the form's FormData; the model records the call with the board's id and does not reconcile the two.
- The board page (app/board/[id]/...): columns, cards, their ordering and drag-and-drop are not part of this model.
- Accounts.AccountStore.CreateAccount: Prisma's `create` throws on a duplicate email. The model has no exceptions, so that error becomes a `false` return with the table unchanged. `SignupAction` proves the case cannot arise after a successful validation.
- `Auth.Credentials`: a field that is present but not a string is modelled like an absent one, since both fail the `string()` schema.
- `AuthConfig.SessionCallback` requires a session user, as the non-null assertion `session.user!` presumes. A session without one would make the callback throw, and that case is not modelled.
- Asynchrony and concurrency: each `await` is a sequential step. Two sign-ups for one email could race between the exists check and the creation; the model does not capture this.
