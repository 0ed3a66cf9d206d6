/**
 * The NextAuth configuration shared by the middleware and the server
 * (app/_lib/auth.config.ts): which routes need a signed-in user, where the
 * middleware sends everybody else, and how the session is given the user's id.
 */
module AuthConfig {
  import opened Wrappers

  /** `pages.signIn`: where NextAuth sends a request the middleware denies. */
  const SignInPage: string := "/login"
  const HomePage: string := "/home"
  const BoardPrefix: string := "/board"

  /** The user part of a session, as a value: each field may be undefined. */
  datatype SessionUser = SessionUser(id: Option<string>, email: Option<string>, name: Option<string>)

  /** A session as `auth()` hands it out. */
  datatype SessionData = SessionData(user: Option<SessionUser>)

  /** What the `authorized` callback answers: `true`, `false` or a redirect response. */
  datatype Decision = Allow | Deny | RedirectTo(location: string)

  /** JavaScript's `s.startsWith(prefix)`. */
  predicate StartsWith(s: string, prefix: string)
  {
    |prefix| <= |s| && s[..|prefix|] == prefix
  }

  /** `!!auth?.user`: the middleware's notion of being logged in. */
  predicate HasUser(auth: Option<SessionData>): (b: bool)
    // Any user object is truthy, whatever its fields hold.
    ensures b <==> exists user :: auth == Some(SessionData(Some(user)))
  {
    auth.Some? && auth.value.user.Some?
  }

  /** `pathname === "/home" || pathname.startsWith("/board")`. */
  predicate IsOnDashboard(pathname: string): (r: bool)
    ensures r <==> pathname == HomePage || exists suffix :: pathname == BoardPrefix + suffix
  {
    assert StartsWith(pathname, BoardPrefix) ==> pathname == BoardPrefix + pathname[|BoardPrefix|..];
    assert forall suffix :: pathname == BoardPrefix + suffix ==> pathname[..|BoardPrefix|] == BoardPrefix;
    pathname == HomePage || StartsWith(pathname, BoardPrefix)
  }

  /** The `authorized` callback, on the session and the request's pathname. */
  function Authorized(auth: Option<SessionData>, pathname: string): (d: Decision)
    ensures d == Allow <==> (IsOnDashboard(pathname) <==> HasUser(auth))
    ensures d == Deny <==> IsOnDashboard(pathname) && !HasUser(auth)
    ensures d.RedirectTo? <==> !IsOnDashboard(pathname) && HasUser(auth)
    ensures d.RedirectTo? ==> d.location == HomePage
  {
    var isLoggedIn := HasUser(auth);
    if IsOnDashboard(pathname) then
      if isLoggedIn then Allow else Deny
    else if isLoggedIn then
      RedirectTo(HomePage)
    else
      Allow
  }

  /** A logged-in user is never denied; a logged-out user is never redirected. */
  lemma NeverDeniedNeverRedirected(auth: Option<SessionData>, pathname: string)
    ensures HasUser(auth) ==> Authorized(auth, pathname) != Deny
    ensures !HasUser(auth) ==> !Authorized(auth, pathname).RedirectTo?
  {
  }

  /**
   * Neither answer that moves the user elsewhere leads to a loop: the page a
   * logged-in user is redirected to admits them, and so does the sign-in page
   * a logged-out user is sent to.
   */
  lemma NoRedirectLoop(auth: Option<SessionData>, pathname: string)
    ensures Authorized(auth, pathname).RedirectTo? ==>
      Authorized(auth, Authorized(auth, pathname).location) == Allow
    ensures Authorized(auth, pathname) == Deny ==> Authorized(auth, SignInPage) == Allow
  {
    assert SignInPage[..|BoardPrefix|][1] != BoardPrefix[1];
  }

  /**
   * The dashboard test is a raw prefix test on "/board" and an exact test on
   * "/home": every extension of a board path is protected, "/boardx"
   * included, while paths below "/home" are not.
   */
  lemma DashboardPaths(suffix: string)
    ensures IsOnDashboard(BoardPrefix + suffix)
    ensures IsOnDashboard("/boardx")
    ensures suffix != [] ==> !IsOnDashboard(HomePage + suffix)
  {
    assert (BoardPrefix + suffix)[..|BoardPrefix|] == BoardPrefix;
    assert "/boardx"[..|BoardPrefix|] == BoardPrefix;
    if suffix != [] {
      assert (HomePage + suffix)[4] == 'e';
    }
  }

  /** The user object of a live session; the `session` callback writes its `id`. */
  class UserObject {
    var id: Option<string>
    var email: Option<string>
    var name: Option<string>

    constructor (id: Option<string>, email: Option<string>, name: Option<string>)
      ensures this.id == id && this.email == email && this.name == name
    {
      this.id, this.email, this.name := id, email, name;
    }
  }

  /** A live session object as NextAuth passes it to the `session` callback. */
  class Session {
    var user: UserObject?

    constructor (user: UserObject?)
      ensures this.user == user
    {
      this.user := user;
    }

    /** The session as a value, as `auth()` later hands it out. */
    function View(): SessionData
      reads this, user
    {
      if user == null then SessionData(None)
      else SessionData(Some(SessionUser(user.id, user.email, user.name)))
    }
  }

  /** The JWT the session is built from; `sub` is the signed-in account's id. */
  datatype Token = Token(sub: Option<string>)

  /** The session value with its user's id replaced by the token's subject. */
  function WithSubject(s: SessionData, token: Token): (r: SessionData)
    requires s.user.Some?
    ensures r.user.Some? && r.user.value.id == token.sub
    ensures r.user.value.email == s.user.value.email && r.user.value.name == s.user.value.name
  {
    SessionData(Some(s.user.value.(id := token.sub)))
  }

  /**
   * The `session` callback: `session.user!.id = token.sub!`. The non-null
   * assertion on `session.user` is the source's demand on its caller; a token
   * without a subject leaves the id undefined.
   */
  method SessionCallback(session: Session, token: Token) returns (r: Session)
    requires session.user != null
    modifies session.user
    ensures r == session && session.user == old(session.user)
    ensures session.View() == WithSubject(old(session.View()), token)
  {
    session.user.id := token.sub;
    r := session;
  }
}
