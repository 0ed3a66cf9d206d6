/**
 * The account table as the core sees it: the three queries that the sign-up
 * and credential checks call (app/_lib/db.ts). The database itself, salt and
 * id generation and the PBKDF2 hash are not modelled; they enter as
 * parameters.
 */
module Accounts {
  import opened Wrappers

  /** An account joined with its password row, as `getAccountWithPassword` returns it. */
  datatype AccountWithPassword = AccountWithPassword(
    id: string,
    email: string,
    passwordHash: string,
    passwordSalt: string)

  /**
   * `pbkdf2Sync(password, salt, 1000, 64, "sha256").toString("hex")`, taken as
   * an uninterpreted function of (password, salt). Account creation and the
   * credential check use the same iteration count, key length and digest, so
   * one function stands for both.
   */
  type Hash = (string, string) -> string

  /** `findUnique({ where: { email } })`: the lookup by unique email that a stored account map answers. */
  function LookupIn(accounts: map<string, AccountWithPassword>): (lookup: string -> Option<AccountWithPassword>)
    ensures forall email :: lookup(email).Some? <==> email in accounts
    ensures forall email :: email in accounts ==> lookup(email) == Some(accounts[email])
  {
    email => if email in accounts then Some(accounts[email]) else None
  }

  /** The accounts table, keyed by its unique `email` column. */
  class AccountStore {
    var accounts: map<string, AccountWithPassword>
    /** The emails `accountExists` was asked about, in order. */
    ghost var existsQueries: seq<string>

    /** Every row is filed under its own email. */
    predicate Valid()
      reads this
    {
      forall email :: email in accounts ==> accounts[email].email == email
    }

    constructor ()
      ensures Valid() && accounts == map[] && existsQueries == []
    {
      accounts := map[];
      existsQueries := [];
    }

    /** `accountExists(email)`: is there a row with this email? The query is logged. */
    method AccountExists(email: string) returns (found: bool)
      modifies this
      ensures accounts == old(accounts) && existsQueries == old(existsQueries) + [email]
      ensures found <==> email in accounts
    {
      found := email in accounts;
      existsQueries := existsQueries + [email];
    }

    /** `getAccountWithPassword(email)`: the row with this email, or null. */
    method GetAccountWithPassword(email: string) returns (account: Option<AccountWithPassword>)
      requires Valid()
      ensures account.None? <==> email !in accounts
      ensures account.Some? ==> account.value == accounts[email] && account.value.email == email
    {
      if email in accounts {
        account := Some(accounts[email]);
      } else {
        account := None;
      }
    }

    /**
     * `createAccount(email, password)`: stores the salted hash of the password.
     * `id` and `salt` are the values the database and `randomBytes` would
     * generate. The email column is unique, so creating a second account for
     * an email fails and changes nothing (`created` is false).
     */
    method CreateAccount(email: string, password: string, id: string, salt: string, hash: Hash)
      returns (created: bool)
      requires Valid()
      modifies this
      ensures Valid() && existsQueries == old(existsQueries)
      ensures created <==> email !in old(accounts)
      ensures accounts == if created
        then old(accounts)[email := AccountWithPassword(id, email, hash(password, salt), salt)]
        else old(accounts)
    {
      created := email !in accounts;
      if created {
        accounts := accounts[email := AccountWithPassword(id, email, hash(password, salt), salt)];
      }
    }
  }
}
