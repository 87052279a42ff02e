/** The session-side security helpers: random tokens as hexadecimal text,
    the CSRF token kept in `$_SESSION`, input sanitising, and the part of
    the remember-me auto-login that does not depend on the database.
    `random_bytes` is a parameter (the bytes it returned), and the database
    search for a matching remember token is an answer given to the model. */
module Security {
  import opened Wrappers
  import opened Text
  import opened Php

  /** The bytes `generateSecureToken` draws when called without argument. */
  const DefaultTokenBytes := 32

  const CsrfKey := "csrf_token"
  const LoggedInKey := "logged_in"
  const RememberCookie := "remember_token"

  /** `generateSecureToken($length)`, given the `$length` bytes that
      `random_bytes` returned: their lower-case hexadecimal text, which
      `hex2bin` reads back. */
  function GenerateSecureToken(random: seq<byte>): (t: string)
    ensures |t| == 2 * |random|
    ensures forall i :: 0 <= i < |t| ==> IsLowerHex(t[i])
    ensures HexToBytes(t) == random
  {
    HexRoundTrip(random);
    BytesToHex(random)
  }

  /** With the default length the token is 64 hexadecimal characters. */
  lemma DefaultTokenIs64Hex(random: seq<byte>)
    requires |random| == DefaultTokenBytes
    ensures |GenerateSecureToken(random)| == 64
  {
  }

  /** Distinct random bytes give distinct tokens. */
  lemma SecureTokenInjective(a: seq<byte>, b: seq<byte>)
    requires GenerateSecureToken(a) == GenerateSecureToken(b)
    ensures a == b
  {
    assert HexToBytes(GenerateSecureToken(a)) == a;
  }

  /** The session after `generateCsrfToken()` and the value it returns: a
      new token is stored only when none is set, and the stored one is
      returned either way. */
  function CsrfAfterGenerate(vars: map<string, PhpVal>, random: seq<byte>): (r: (map<string, PhpVal>, PhpVal))
    ensures IsSet(r.0, CsrfKey) && r.1 == r.0[CsrfKey]
    ensures IsSet(vars, CsrfKey) ==> r.0 == vars
    ensures !IsSet(vars, CsrfKey) ==> r.1 == PStr(GenerateSecureToken(random))
    ensures forall k :: k in vars && k != CsrfKey ==> k in r.0 && r.0[k] == vars[k]
    ensures forall k :: k in r.0 && k != CsrfKey ==> k in vars
  {
    if IsSet(vars, CsrfKey) then (vars, vars[CsrfKey])
    else
      var token := PStr(GenerateSecureToken(random));
      (vars[CsrfKey := token], token)
  }

  /** `verifyCsrfToken($token)`. `hash_equals` throws a `TypeError` when
      either side is not a string; that outcome is `None`. */
  function VerifyCsrfToken(vars: map<string, PhpVal>, token: PhpVal): (r: Option<bool>)
    ensures !IsSet(vars, CsrfKey) ==> r == Some(false)
    ensures r == Some(true) <==> IsSet(vars, CsrfKey) && token.PStr? && vars[CsrfKey] == token
    ensures r.None? <==> IsSet(vars, CsrfKey) && (!vars[CsrfKey].PStr? || !token.PStr?)
  {
    if !IsSet(vars, CsrfKey) then Some(false)
    else if vars[CsrfKey].PStr? && token.PStr? then Some(vars[CsrfKey].s == token.s)
    else None
  }

  /** A second call returns the same token and leaves the session as the
      first call left it. */
  lemma {:induction false} CsrfGenerateIdempotent(vars: map<string, PhpVal>, first: seq<byte>, second: seq<byte>)
    ensures var (after, token) := CsrfAfterGenerate(vars, first);
      CsrfAfterGenerate(after, second) == (after, token)
  {
    var (after, token) := CsrfAfterGenerate(vars, first);
    assert IsSet(after, CsrfKey);
  }

  /** `verifyCsrfToken(generateCsrfToken())` holds whenever the session
      holds no token yet or holds a string. */
  lemma {:induction false} CsrfVerifiesGenerated(vars: map<string, PhpVal>, random: seq<byte>)
    requires !IsSet(vars, CsrfKey) || vars[CsrfKey].PStr?
    ensures var (after, token) := CsrfAfterGenerate(vars, random);
      VerifyCsrfToken(after, token) == Some(true)
  {
    var (after, token) := CsrfAfterGenerate(vars, random);
    assert token.PStr?;
  }

  /** Only the stored token verifies. */
  lemma CsrfRejectsOthers(vars: map<string, PhpVal>, random: seq<byte>, other: PhpVal)
    ensures var (after, token) := CsrfAfterGenerate(vars, random);
      other != token ==> VerifyCsrfToken(after, other) != Some(true)
  {
  }

  /** `sanitizeInput($input)`: trimmed, then HTML-escaped. */
  function SanitizeInput(input: string): (r: string)
    ensures NoMarkup(r)
    ensures EmptyString(r) <==> EmptyString(Trim(input))
  {
    HtmlSpecialCharsKeepsEmpty(Trim(input));
    EscapedHasNoMarkup(Trim(input));
    HtmlSpecialChars(Trim(input))
  }

  /** The user id, name and role of the row whose token matched. */
  datatype TokenRow = TokenRow(userId: PhpVal, username: PhpVal, role: PhpVal)

  /** What the search of `remember_tokens` found: the first unexpired row
      whose hash the cookie matches and whose token rotation then went
      through; such a row whose rotation (the new token's hash or the
      UPDATE, which PDO's exception mode turns into a throw) raised after
      the session was written; no row; or an exception before any row
      matched. */
  datatype TokenLookup = Matched(row: TokenRow) | RotationRaised(row: TokenRow) | NoMatch | LookupRaised

  /** What the response does to the remember-me cookie. */
  datatype CookieWrite = CookieUntouched | CookieRotated(token: string) | CookieCleared

  /** The early exit of `checkRememberToken`: a session with `logged_in`
      set (whatever its value) or a request without the cookie. */
  predicate RememberSkipped(vars: map<string, PhpVal>, cookies: map<string, PhpVal>)
  {
    IsSet(vars, LoggedInKey) || !IsSet(cookies, RememberCookie)
  }

  /** The session after a matching row logs its user in. */
  function LoggedInSession(vars: map<string, PhpVal>, row: TokenRow): (s: map<string, PhpVal>)
    ensures s.Keys == vars.Keys + {"user_id", "username", "role", LoggedInKey}
    ensures s[LoggedInKey] == PBool(true) && s["role"] == row.role
    ensures s["user_id"] == row.userId && s["username"] == row.username
    ensures forall k :: k in vars && k !in {"user_id", "username", "role", LoggedInKey} ==> s[k] == vars[k]
  {
    vars["user_id" := row.userId]["username" := row.username]["role" := row.role][LoggedInKey := PBool(true)]
  }

  /** `checkRememberToken()`: the new session, the result and the cookie
      written, given the search's answer and the bytes for the rotated
      token. */
  function RememberLogin(vars: map<string, PhpVal>, cookies: map<string, PhpVal>, lookup: TokenLookup,
                         random: seq<byte>): (r: (map<string, PhpVal>, bool, CookieWrite))
    ensures RememberSkipped(vars, cookies) ==> r == (vars, false, CookieUntouched)
    ensures r.1 <==> !RememberSkipped(vars, cookies) && lookup.Matched?
    ensures !RememberSkipped(vars, cookies) && (lookup.Matched? || lookup.RotationRaised?) ==>
              r.0 == LoggedInSession(vars, lookup.row)
    ensures RememberSkipped(vars, cookies) || lookup.NoMatch? || lookup.LookupRaised? ==> r.0 == vars
    ensures r.1 ==> r.2 == CookieRotated(GenerateSecureToken(random))
    ensures !RememberSkipped(vars, cookies) && !lookup.Matched? ==> r.2 == CookieCleared
  {
    if RememberSkipped(vars, cookies) then (vars, false, CookieUntouched)
    else match lookup
      case Matched(row) => (LoggedInSession(vars, row), true, CookieRotated(GenerateSecureToken(random)))
      case RotationRaised(row) => (LoggedInSession(vars, row), false, CookieCleared)
      case _ => (vars, false, CookieCleared)
  }

  /** `$_SESSION`, which these helpers read and write in place. */
  class SessionStore {
    var vars: map<string, PhpVal>

    constructor (initial: map<string, PhpVal>)
      ensures vars == initial
    {
      vars := initial;
    }

    /** `generateCsrfToken()`, given the bytes `random_bytes(32)` returns. */
    method GenerateCsrfToken(random: seq<byte>) returns (token: PhpVal)
      modifies this
      ensures (vars, token) == CsrfAfterGenerate(old(vars), random)
    {
      if !IsSet(vars, CsrfKey) {
        vars := vars[CsrfKey := PStr(GenerateSecureToken(random))];
      }
      token := vars[CsrfKey];
    }

    /** `checkRememberToken()`, given the request's cookies, the search's
        answer and the bytes for the rotated token. */
    method CheckRememberToken(cookies: map<string, PhpVal>, lookup: TokenLookup, random: seq<byte>)
      returns (ok: bool, cookie: CookieWrite)
      modifies this
      ensures (vars, ok, cookie) == RememberLogin(old(vars), cookies, lookup, random)
    {
      if IsSet(vars, LoggedInKey) || !IsSet(cookies, RememberCookie) {
        return false, CookieUntouched;
      }
      match lookup {
        case Matched(row) =>
          vars := vars["user_id" := row.userId];
          vars := vars["username" := row.username];
          vars := vars["role" := row.role];
          vars := vars[LoggedInKey := PBool(true)];
          var newToken := GenerateSecureToken(random);
          ok, cookie := true, CookieRotated(newToken);
        case RotationRaised(row) =>
          vars := vars["user_id" := row.userId];
          vars := vars["username" := row.username];
          vars := vars["role" := row.role];
          vars := vars[LoggedInKey := PBool(true)];
          ok, cookie := false, CookieCleared;
        case _ =>
          ok, cookie := false, CookieCleared;
      }
    }
  }
}
