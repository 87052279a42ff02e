/** The authentication include: who counts as logged in, the role check,
    the guard pages call, and what including the file does to a request
    (remember-me auto-login, then the login redirect on protected pages).
    `$_SESSION` is a `Security.SessionStore`; a redirect with `exit` is the
    location returned, `None` when the page goes on. */
module Auth {
  import opened Wrappers
  import opened Text
  import opened Php
  import opened Security

  const RoleKey := "role"
  const ErrorKey := "error"
  const RedirectAfterLoginKey := "redirect_after_login"
  const LoginPage := "/login.php"
  const IndexPage := "/pages/index.php"
  const AuthRequiredText := "Authentication required to access this page."
  const NoPermissionText := "You do not have permission to access this page."
  const PleaseLogInText := "Veuillez vous connecter pour accéder à cette page."

  /** The scripts reachable without a session. */
  const AllowedPages: seq<string> := ["login.php", "logout.php"]

  /** `isLoggedIn()`: `logged_in` is the boolean `true`, compared with
      `===`, so a truthy `1` or `"1"` does not count. */
  predicate IsLoggedIn(vars: map<string, PhpVal>)
  {
    IsSet(vars, LoggedInKey) && vars[LoggedInKey] == PBool(true)
  }

  lemma LoggedInIsExactlyTrue(vars: map<string, PhpVal>)
    ensures IsLoggedIn(vars) <==> LoggedInKey in vars && vars[LoggedInKey] == PBool(true)
    ensures LoggedInKey in vars && vars[LoggedInKey] in {PInt(1), PStr("1"), PBool(false)} ==> !IsLoggedIn(vars)
  {
  }

  /** `hasRole($role)`: logged in, a role set, and equal to `$role` with
      `===`. */
  function HasRole(vars: map<string, PhpVal>, role: PhpVal): (b: bool)
    ensures b ==> IsLoggedIn(vars) && role != PNull
    ensures b <==> IsLoggedIn(vars) && RoleKey in vars && vars[RoleKey] != PNull && vars[RoleKey] == role
  {
    IsLoggedIn(vars) && IsSet(vars, RoleKey) && vars[RoleKey] == role
  }

  /** What `requireAuth($role)` decides: go on, or store an error and
      redirect. */
  datatype Guard = Pass | Deny(error: string, location: string)

  /** `requireAuth($role)`; `PNull` is the default "no role required". */
  function AuthGuard(vars: map<string, PhpVal>, role: PhpVal): (g: Guard)
    ensures g.Pass? <==> IsLoggedIn(vars) && (role == PNull || HasRole(vars, role))
    ensures !IsLoggedIn(vars) ==> g == Deny(AuthRequiredText, LoginPage)
    ensures IsLoggedIn(vars) && !g.Pass? ==> g == Deny(NoPermissionText, IndexPage)
  {
    if !IsLoggedIn(vars) then Deny(AuthRequiredText, LoginPage)
    else if role != PNull && !HasRole(vars, role) then Deny(NoPermissionText, IndexPage)
    else Pass
  }

  /** Without a role requirement every logged-in session passes; with one,
      the same session passes exactly when it holds that role. */
  lemma {:induction false} GuardRoleMonotone(vars: map<string, PhpVal>, role: PhpVal)
    ensures AuthGuard(vars, role).Pass? ==> AuthGuard(vars, PNull).Pass?
    ensures role != PNull ==> (AuthGuard(vars, role).Pass? <==> HasRole(vars, role))
  {
    var _ := HasRole(vars, role);
  }

  /** `in_array(basename($_SERVER['SCRIPT_NAME']), ['login.php', 'logout.php'])`. */
  predicate PublicPage(scriptName: string)
  {
    Basename(scriptName) in AllowedPages
  }

  /** The session after `checkAuth()` and the redirect it sends. */
  function AuthCheck(vars: map<string, PhpVal>, skip: bool, scriptName: string, requestUri: string)
    : (r: (map<string, PhpVal>, Option<string>))
    ensures skip || PublicPage(scriptName) || IsLoggedIn(vars) ==> r == (vars, None)
    ensures !skip && !PublicPage(scriptName) && !IsLoggedIn(vars) ==>
      && r.1 == Some(LoginPage)
      && r.0 == vars[RedirectAfterLoginKey := PStr(requestUri)][ErrorKey := PStr(PleaseLogInText)]
  {
    if skip || PublicPage(scriptName) || IsLoggedIn(vars) then (vars, None)
    else (vars[RedirectAfterLoginKey := PStr(requestUri)][ErrorKey := PStr(PleaseLogInText)], Some(LoginPage))
  }

  /** Including `auth.php`: the remember-me attempt when not logged in,
      then `checkAuth()` with the skip flag set on the public pages. */
  function AuthInclude(vars: map<string, PhpVal>, scriptName: string, requestUri: string,
                       cookies: map<string, PhpVal>, lookup: TokenLookup, random: seq<byte>)
    : (r: (map<string, PhpVal>, Option<string>, CookieWrite))
    ensures PublicPage(scriptName) ==> r.1 == None
    ensures IsLoggedIn(vars) ==> r == (vars, None, CookieUntouched)
    ensures r.1.Some? ==>
      && r.1 == Some(LoginPage) && RedirectAfterLoginKey in r.0 && r.0[RedirectAfterLoginKey] == PStr(requestUri)
      && ErrorKey in r.0 && r.0[ErrorKey] == PStr(PleaseLogInText)
    ensures r.1.None? && !PublicPage(scriptName) ==> IsLoggedIn(r.0)
    ensures !IsLoggedIn(vars) ==> r.2 == RememberLogin(vars, cookies, lookup, random).2
  {
    var (afterRemember, _, cookie) :=
      if !IsLoggedIn(vars) then RememberLogin(vars, cookies, lookup, random) else (vars, false, CookieUntouched);
    var (afterCheck, location) := AuthCheck(afterRemember, PublicPage(scriptName), scriptName, requestUri);
    (afterCheck, location, cookie)
  }

  /** A session whose `logged_in` is set to anything but `true` is
      neither logged in nor auto-logged-in by a valid cookie: the remember
      attempt exits early on `isset`. */
  lemma StaleFlagBlocksRememberLogin(vars: map<string, PhpVal>, scriptName: string, requestUri: string,
                                     cookies: map<string, PhpVal>, row: TokenRow, random: seq<byte>)
    requires IsSet(vars, LoggedInKey) && vars[LoggedInKey] != PBool(true)
    requires !PublicPage(scriptName)
    ensures AuthInclude(vars, scriptName, requestUri, cookies, Matched(row), random).1 == Some(LoginPage)
  {
    assert !IsLoggedIn(vars);
    assert RememberLogin(vars, cookies, Matched(row), random).0 == vars;
  }

  /** A logged-out visitor with a matching remember cookie reaches a
      protected page. */
  lemma RememberedVisitorPasses(vars: map<string, PhpVal>, scriptName: string, requestUri: string,
                                cookies: map<string, PhpVal>, row: TokenRow, random: seq<byte>)
    requires !IsSet(vars, LoggedInKey) && IsSet(cookies, RememberCookie)
    ensures var r := AuthInclude(vars, scriptName, requestUri, cookies, Matched(row), random);
      r.1 == None && IsLoggedIn(r.0) && r.2 == CookieRotated(GenerateSecureToken(random))
  {
    var s := LoggedInSession(vars, row);
    assert IsLoggedIn(s);
    assert AuthCheck(s, PublicPage(scriptName), scriptName, requestUri) == (s, None);
  }

  /** A matching remember cookie whose token rotation throws still lets the
      visitor through: `checkRememberToken` answers false and clears the
      cookie, but the session it wrote before the throw is logged in, so
      `checkAuth()` does not redirect. */
  lemma RotationFailureStillPasses(vars: map<string, PhpVal>, scriptName: string, requestUri: string,
                                   cookies: map<string, PhpVal>, row: TokenRow, random: seq<byte>)
    requires !IsSet(vars, LoggedInKey) && IsSet(cookies, RememberCookie)
    ensures !RememberLogin(vars, cookies, RotationRaised(row), random).1
    ensures var r := AuthInclude(vars, scriptName, requestUri, cookies, RotationRaised(row), random);
      r.1 == None && r.0 == LoggedInSession(vars, row) && IsLoggedIn(r.0) && r.2 == CookieCleared
  {
    var s := LoggedInSession(vars, row);
    assert IsLoggedIn(s);
    assert AuthCheck(s, PublicPage(scriptName), scriptName, requestUri) == (s, None);
  }

  /** `requireAuth($role)` against the session. */
  method RequireAuth(session: SessionStore, role: PhpVal) returns (location: Option<string>)
    modifies session
    ensures match AuthGuard(old(session.vars), role)
      case Pass => location == None && session.vars == old(session.vars)
      case Deny(e, l) => location == Some(l) && session.vars == old(session.vars)[ErrorKey := PStr(e)]
  {
    if !IsLoggedIn(session.vars) {
      session.vars := session.vars[ErrorKey := PStr(AuthRequiredText)];
      return Some(LoginPage);
    }
    if role != PNull && !HasRole(session.vars, role) {
      session.vars := session.vars[ErrorKey := PStr(NoPermissionText)];
      return Some(IndexPage);
    }
    location := None;
  }

  /** `checkAuth()` against the session. */
  method CheckAuth(session: SessionStore, skip: bool, scriptName: string, requestUri: string)
    returns (location: Option<string>)
    modifies session
    ensures (session.vars, location) == AuthCheck(old(session.vars), skip, scriptName, requestUri)
  {
    if skip {
      return None;
    }
    var currentPage := Basename(scriptName);
    if currentPage !in AllowedPages {
      if !IsLoggedIn(session.vars) {
        session.vars := session.vars[RedirectAfterLoginKey := PStr(requestUri)];
        session.vars := session.vars[ErrorKey := PStr(PleaseLogInText)];
        return Some(LoginPage);
      }
    }
    location := None;
  }

  /** The statements of `auth.php` that run when a page includes it. */
  method IncludeAuth(session: SessionStore, scriptName: string, requestUri: string,
                     cookies: map<string, PhpVal>, lookup: TokenLookup, random: seq<byte>)
    returns (location: Option<string>, cookie: CookieWrite)
    modifies session
    ensures (session.vars, location, cookie) ==
      AuthInclude(old(session.vars), scriptName, requestUri, cookies, lookup, random)
  {
    cookie := CookieUntouched;
    if !IsLoggedIn(session.vars) {
      var _, c := session.CheckRememberToken(cookies, lookup, random);
      cookie := c;
    }
    var skip := false;
    if Basename(scriptName) in AllowedPages {
      skip := true;
    }
    location := CheckAuth(session, skip, scriptName, requestUri);
  }
}
