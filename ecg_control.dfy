/** The PHP API in front of the capture service (`ecg_control.php`): the
    CORS preflight, the login gate, the split of the request path into an
    action and an id, the id check, the per-action method check, and the
    translation of the service's answer into the reply the browser sees.
    The database checks and the HTTP call to the service are parameters:
    `Access` is what `validateDiagnosticAccess` found, `ImageLookup` what the
    image query found, `Upstream` what `makeHttpRequest` returned. The reply
    records which service call, if any, was made. */
module EcgControl {
  import opened Wrappers
  import opened Text
  import opened Json
  import opened Php
  import Security
  import Auth

  datatype Access = AccessFound | AccessMissing | AccessRaised

  datatype ImageLookup = ImageFound | ImageMissing | ImageRaised

  /** `makeHttpRequest`: a curl error (reported with `http_code` 0), or the
      status and the decoded body (`null` when it is not JSON). */
  datatype Upstream = ConnectionError(message: string) | Answer(httpCode: int, data: Json)

  /** A request to the capture service: verb and path below its base URL. */
  datatype Call = Call(verb: string, path: string)

  /** The HTTP status, the JSON body (none for the preflight) and the
      service call made. */
  datatype Outcome = Outcome(status: int, body: Option<Json>, call: Option<Call>)

  const UnauthorizedText := "Non autorisé"
  const InvalidIdText := "ID de diagnostic invalide"
  const MethodNotAllowedText := "Méthode non autorisée"
  const DiagnosticNotFoundText := "Diagnostic non trouvé"
  const ValidationFailedText := "Erreur de validation"
  const InvalidImageIdText := "ID d'image invalide"
  const ImageNotFoundText := "Image non trouvée"
  const InternalErrorText := "Erreur interne du serveur"
  const ServiceDownText := "Service ECG indisponible"
  const UnknownActionText := "Action non trouvée"

  /** `$response['http_code']`. */
  function HttpCode(u: Upstream): int
  {
    if u.Answer? then u.httpCode else 0
  }

  /** `$response['data']['error'] ?? $fallback`. */
  function UpstreamError(u: Upstream, fallback: string): (e: Json)
    ensures u.Answer? && Get(u.data, "error").Some? && Get(u.data, "error").value != JNull ==> e == Get(u.data, "error").value
    ensures u.ConnectionError? || Get(u.data, "error").None? || Get(u.data, "error") == Some(JNull) ==> e == JStr(fallback)
  {
    if u.Answer? then
      match Get(u.data, "error")
      case Some(v) => if v != JNull then v else JStr(fallback)
      case None => JStr(fallback)
    else JStr(fallback)
  }

  /** A reply holding only an error message. */
  function ErrorOutcome(status: int, text: string): (o: Outcome)
    ensures o.status == status && o.call.None? && o.body.Some?
    ensures Get(o.body.value, "error") == Some(JStr(text))
  {
    Outcome(status, Some(JObj([("error", JStr(text))])), None)
  }

  /** `trim($uri, '/')` split at `/`: the last piece is the id and the one
      before it the action, `''` when there is none. */
  function ParsePath(path: string): (res: (string, string))
    ensures '/' !in res.0 && '/' !in res.1
  {
    var parts := Split(TrimSet(path, {'/'}), '/');
    SplitPiecesFree(TrimSet(path, {'/'}), '/');
    (if |parts| >= 2 then parts[|parts| - 2] else "", parts[|parts| - 1])
  }

  /** The id check: a non-empty (in PHP's sense) id must be numeric. */
  predicate IdRejected(id: string)
  {
    !EmptyString(id) && !IsNumeric(id)
  }

  predicate KnownAction(action: string)
  {
    action in {"start", "stop", "status", "images", "image", "health"}
  }

  /** The only method each action accepts. */
  function RequiredVerb(action: string): string
  {
    if action == "start" || action == "stop" then "POST" else "GET"
  }

  /** The reply built from the service's answer: on `http_code === 200`
      `success` and the answer passed through under `data`; otherwise the
      answer's status, 500 for a connection error, and its error or the
      action's default message. */
  function Relay(u: Upstream, extra: seq<(string, Json)>, idKey: string, id: string, fallback: string): (res: (int, Json))
    requires forall i :: 0 <= i < |extra| ==> extra[i].0 != "success" && extra[i].0 != "data"
    requires idKey != "error" && idKey != "success"
    ensures HttpCode(u) == 200 ==>
      && res.0 == 200
      && Get(res.1, "success") == Some(JBool(true))
      && Get(res.1, "data") == Some(u.data)
    ensures HttpCode(u) != 200 ==>
      && res.0 == (if HttpCode(u) == 0 then 500 else HttpCode(u))
      && Get(res.1, "success").None?
      && Get(res.1, "error") == Some(UpstreamError(u, fallback))
      && Get(res.1, idKey) == Some(JStr(id))
  {
    if HttpCode(u) == 200 then
      var fields := [("success", JBool(true))] + extra + [("data", u.data)];
      LookupDistinct(fields, 0);
      (200, JObj(fields))
    else
      var fields := [("error", UpstreamError(u, fallback)), (idKey, JStr(id))];
      LookupDistinct(fields, 0);
      LookupDistinct(fields, 1);
      (if HttpCode(u) == 0 then 500 else HttpCode(u), JObj(fields))
  }

  /** `start`, `stop`, `status` and `images`: the method check, the access
      check, then one service call and its relayed answer. */
  function DiagnosticAction(verb: string, required: string, servicePath: string, id: string, access: Access,
                            u: Upstream, extra: seq<(string, Json)>, fallback: string): (o: Outcome)
    requires forall i :: 0 <= i < |extra| ==> extra[i].0 != "success" && extra[i].0 != "data"
    ensures verb != required ==> o == ErrorOutcome(405, MethodNotAllowedText)
    ensures verb == required && access.AccessMissing? ==> o == ErrorOutcome(404, DiagnosticNotFoundText)
    ensures verb == required && access.AccessRaised? ==> o == ErrorOutcome(500, ValidationFailedText)
    ensures o.call.Some? <==> verb == required && access.AccessFound?
    ensures o.call.Some? ==> o.call == Some(Call(required, servicePath + id))
  {
    if verb != required then ErrorOutcome(405, MethodNotAllowedText)
    else
      match access
      case AccessMissing => ErrorOutcome(404, DiagnosticNotFoundText)
      case AccessRaised => ErrorOutcome(500, ValidationFailedText)
      case AccessFound =>
        var (st, body) := Relay(u, extra, "diagnostic_id", id, fallback);
        Outcome(st, Some(body), Some(Call(required, servicePath + id)))
  }

  /** `image`: the id here names an image and must be numeric, even empty;
      the image must exist before the service is asked. */
  function ImageAction(verb: string, id: string, image: ImageLookup, u: Upstream): (o: Outcome)
    ensures verb != "GET" ==> o.status == 405
    ensures verb == "GET" && !IsNumeric(id) ==> o == ErrorOutcome(400, InvalidImageIdText)
    ensures verb == "GET" && IsNumeric(id) && image.ImageMissing? ==> o == ErrorOutcome(404, ImageNotFoundText)
    ensures o.call.Some? <==> verb == "GET" && IsNumeric(id) && image.ImageFound?
    ensures o.call.Some? ==> o.call == Some(Call("GET", "/image/" + id))
  {
    if verb != "GET" then ErrorOutcome(405, MethodNotAllowedText)
    else if !IsNumeric(id) then ErrorOutcome(400, InvalidImageIdText)
    else
      match image
      case ImageMissing => ErrorOutcome(404, ImageNotFoundText)
      case ImageRaised => ErrorOutcome(500, InternalErrorText)
      case ImageFound =>
        var (st, body) := Relay(u, [("image_id", JStr(id))], "image_id", id, "Erreur lors de la récupération de l'image");
        Outcome(st, Some(body), Some(Call("GET", "/image/" + id)))
  }

  /** `health`: any answer but 200 is reported as 503, unhealthy. */
  function HealthAction(verb: string, u: Upstream): (o: Outcome)
    ensures verb != "GET" ==> o == ErrorOutcome(405, MethodNotAllowedText)
    ensures verb == "GET" ==> o.call == Some(Call("GET", "/health")) && o.body.Some?
    ensures verb == "GET" && HttpCode(u) == 200 ==>
      o.status == 200 && Get(o.body.value, "service_status") == Some(JStr("healthy")) && Get(o.body.value, "data") == Some(u.data)
    ensures verb == "GET" && HttpCode(u) != 200 ==>
      o.status == 503 && Get(o.body.value, "service_status") == Some(JStr("unhealthy"))
  {
    if verb != "GET" then ErrorOutcome(405, MethodNotAllowedText)
    else if HttpCode(u) == 200 then
      var fields := [("success", JBool(true)), ("service_status", JStr("healthy")), ("data", u.data)];
      LookupDistinct(fields, 1);
      Outcome(200, Some(JObj(fields)), Some(Call("GET", "/health")))
    else
      var fields := [("error", JStr(ServiceDownText)), ("service_status", JStr("unhealthy"))];
      LookupDistinct(fields, 1);
      Outcome(503, Some(JObj(fields)), Some(Call("GET", "/health")))
  }

  /** The `switch ($action)`. */
  function Dispatch(verb: string, action: string, id: string, access: Access, image: ImageLookup, u: Upstream): (o: Outcome)
    ensures !KnownAction(action) ==> o == ErrorOutcome(404, UnknownActionText)
    ensures KnownAction(action) && verb != RequiredVerb(action) ==> o.status == 405 && o.call.None?
    ensures o.call.Some? ==> KnownAction(action) && o.call.value.verb == verb
  {
    var idField := ("diagnostic_id", JStr(id));
    if action == "start" then
      DiagnosticAction(verb, "POST", "/capture/start/", id, access, u,
                       [("message", JStr("Capture ECG démarrée")), idField], "Erreur lors du démarrage")
    else if action == "stop" then
      DiagnosticAction(verb, "POST", "/capture/stop/", id, access, u,
                       [("message", JStr("Capture ECG arrêtée")), idField], "Erreur lors de l'arrêt")
    else if action == "status" then
      DiagnosticAction(verb, "GET", "/capture/status/", id, access, u,
                       [idField], "Erreur lors de la récupération du statut")
    else if action == "images" then
      DiagnosticAction(verb, "GET", "/images/", id, access, u,
                       [idField], "Erreur lors de la récupération des images")
    else if action == "image" then ImageAction(verb, id, image, u)
    else if action == "health" then HealthAction(verb, u)
    else ErrorOutcome(404, UnknownActionText)
  }

  /** The script after the login gate: the id check, then the `switch`. */
  function Gated(verb: string, path: string, access: Access, image: ImageLookup, u: Upstream): (o: Outcome)
    ensures IdRejected(ParsePath(path).1) ==> o == ErrorOutcome(400, InvalidIdText)
    ensures !IdRejected(ParsePath(path).1) ==> o == Dispatch(verb, ParsePath(path).0, ParsePath(path).1, access, image, u)
    ensures o.call.Some? ==>
      && !IdRejected(ParsePath(path).1) && KnownAction(ParsePath(path).0) && verb == RequiredVerb(ParsePath(path).0)
  {
    var (action, id) := ParsePath(path);
    if IdRejected(id) then ErrorOutcome(400, InvalidIdText)
    else Dispatch(verb, action, id, access, image, u)
  }

  /** The base URL the real-time controller is configured with, which is
      also the `SCRIPT_NAME` of every request the gateway serves. */
  const ControllerBase := "/" + ApiDir + "/" + GatewayScript
  const ApiDir := "api"
  const GatewayScript := "ecg_control.php"

  /** The visitor as `auth.php` sees it: `$_SESSION`, `$_COOKIE`, what the
      search of remember tokens would find and the bytes a rotated token
      would take. */
  datatype Visitor = Visitor(session: map<string, PhpVal>, cookies: map<string, PhpVal>,
                             lookup: Security.TokenLookup, random: seq<byte>)

  /** What a request leaves behind: the reply, the `Location` of a redirect
      followed by `exit`, the session and the remember-me cookie. */
  datatype Response = Response(outcome: Outcome, location: Option<string>,
                               session: map<string, PhpVal>, cookie: Security.CookieWrite)

  /** A `header('Location: ...')` and `exit` without a status of its own:
      PHP answers 302 and the script prints nothing. */
  const RedirectOutcome := Outcome(302, None, None)

  /** The whole script for one request: the CORS preflight, the include of
      `auth.php` (remember-me attempt, then `checkAuth()`, which redirects a
      visitor still logged out), the 401 gate, then `Gated`. */
  function Route(verb: string, path: string, requestUri: string, v: Visitor,
                 access: Access, image: ImageLookup, u: Upstream): (r: Response)
    ensures verb == "OPTIONS" ==> r == Response(Outcome(200, None, None), None, v.session, Security.CookieUntouched)
    ensures verb != "OPTIONS" ==>
      (r.session, r.location, r.cookie) == Auth.AuthInclude(v.session, ControllerBase, requestUri, v.cookies, v.lookup, v.random)
    ensures r.location.Some? ==>
      && r.outcome == RedirectOutcome && r.location == Some(Auth.LoginPage)
      && r.session[Auth.RedirectAfterLoginKey] == PStr(requestUri)
      && r.session[Auth.ErrorKey] == PStr(Auth.PleaseLogInText)
    ensures verb != "OPTIONS" && r.location.None? && Auth.IsLoggedIn(r.session) ==>
      r.outcome == Gated(verb, path, access, image, u)
    ensures r.outcome.call.Some? ==> verb != "OPTIONS" && r.location.None? && Auth.IsLoggedIn(r.session)
  {
    if verb == "OPTIONS" then Response(Outcome(200, None, None), None, v.session, Security.CookieUntouched)
    else
      var (session, location, cookie) :=
        Auth.AuthInclude(v.session, ControllerBase, requestUri, v.cookies, v.lookup, v.random);
      if location.Some? then Response(RedirectOutcome, location, session, cookie)
      else if !Auth.IsLoggedIn(session) then Response(ErrorOutcome(401, UnauthorizedText), None, session, cookie)
      else Response(Gated(verb, path, access, image, u), None, session, cookie)
  }

  /** The gateway is not one of the pages `auth.php` leaves public. */
  lemma GatewayIsProtected()
    ensures !Auth.PublicPage(ControllerBase)
  {
    assert ControllerBase == ("/" + ApiDir) + ['/'] + GatewayScript;
    BasenameOfLastSegment("/" + ApiDir, GatewayScript);
    assert |GatewayScript| == 15;
  }

  /** The 401 branch of the script is dead: once `auth.php` lets a request
      go on, the session is logged in, so every request that is not
      redirected to the login page is answered by `Gated`. */
  lemma UnauthorizedIsUnreachable(verb: string, path: string, requestUri: string, v: Visitor,
                                  access: Access, image: ImageLookup, u: Upstream)
    requires verb != "OPTIONS"
    ensures var r := Route(verb, path, requestUri, v, access, image, u);
      && (r.location.Some? || Auth.IsLoggedIn(r.session))
      && (r.location.None? ==> r.outcome == Gated(verb, path, access, image, u))
  {
    GatewayIsProtected();
    var inc := Auth.AuthInclude(v.session, ControllerBase, requestUri, v.cookies, v.lookup, v.random);
    assert inc.1.None? ==> Auth.IsLoggedIn(inc.0);
  }

  /** A visitor who is not logged in and is not logged in by a remember
      cookie is sent to the login page, with the requested URI and the
      login message stored, and no call is made. */
  lemma LoggedOutIsRedirected(verb: string, path: string, requestUri: string, v: Visitor,
                              access: Access, image: ImageLookup, u: Upstream)
    requires verb != "OPTIONS" && !Auth.IsLoggedIn(v.session)
    requires Security.RememberSkipped(v.session, v.cookies) || v.lookup.NoMatch? || v.lookup.LookupRaised?
    ensures var r := Route(verb, path, requestUri, v, access, image, u);
      && r.outcome == RedirectOutcome && r.location == Some(Auth.LoginPage)
      && r.session == v.session[Auth.RedirectAfterLoginKey := PStr(requestUri)][Auth.ErrorKey := PStr(Auth.PleaseLogInText)]
  {
    GatewayIsProtected();
    var after := Security.RememberLogin(v.session, v.cookies, v.lookup, v.random);
    assert after.0 == v.session;
  }

  /** A visitor whose remember cookie matches but whose token rotation
      throws reaches the switch: the cookie is cleared, yet the session
      written before the throw is logged in, so no redirect is sent. */
  lemma RotationFailureReachesGateway(verb: string, path: string, requestUri: string, v: Visitor,
                                      access: Access, image: ImageLookup, u: Upstream)
    requires verb != "OPTIONS" && v.lookup.RotationRaised?
    requires !IsSet(v.session, Security.LoggedInKey) && IsSet(v.cookies, Security.RememberCookie)
    ensures var r := Route(verb, path, requestUri, v, access, image, u);
      && r.location.None? && r.cookie == Security.CookieCleared && Auth.IsLoggedIn(r.session)
      && r.outcome == Gated(verb, path, access, image, u)
  {
    Auth.RotationFailureStillPasses(v.session, ControllerBase, requestUri, v.cookies, v.lookup.row, v.random);
  }

  /** A path `/<p>/<action>/<id>` parses into that action and id, whatever
      segments `p` holds. */
  lemma ParseSegments(p: string, action: string, id: string)
    requires p != [] && p[0] != '/'
    requires action != [] && '/' !in action
    requires id != [] && '/' !in id
    ensures ParsePath("/" + p + "/" + action + "/" + id) == (action, id)
  {
    var inner := p + ['/'] + action + ['/'] + id;
    assert "/" + p + "/" + action + "/" + id == ['/'] + inner;
    SlashTrimmed(inner);
    SplitThree(p, action, id);
    var parts := Split(inner, '/');
    assert parts[|parts| - 2] == action && parts[|parts| - 1] == id;
  }

  /** Slashes are trimmed from both ends only. */
  lemma SlashTrimmed(inner: string)
    requires inner != [] && inner[0] != '/' && inner[|inner| - 1] != '/'
    ensures TrimSet(['/'] + inner, {'/'}) == inner
  {
    var path := ['/'] + inner;
    var l := TrimLeft(path, {'/'});
    assert path[1..] == inner && path[1] == inner[0];
    assert |l| < |path| by { assert path[0] == '/'; }
    assert |l| == |inner| && l == path[1..];
    TrimRightKeeps(inner, {'/'});
  }

  lemma TrimRightKeeps(s: string, chars: set<char>)
    requires s != [] && s[|s| - 1] !in chars
    ensures TrimRight(s, chars) == s
  {
    assert |TrimRight(s, chars)| == |s|;
  }

  /** The last two pieces of a split are the two slash-free segments
      written last. */
  lemma SplitThree(p: string, action: string, id: string)
    requires '/' !in action && '/' !in id
    ensures Split(p + ['/'] + action + ['/'] + id, '/') == Split(p, '/') + [action, id]
  {
    var front := p + ['/'] + action;
    SplitConcat(front, id, '/');
    SplitNoSeparator(id, '/');
    SplitConcat(p, action, '/');
    SplitNoSeparator(action, '/');
  }

  /** The controller's paths `<base>/<action>/<id>` parse back into that
      action and id. */
  lemma ControllerPathParses(action: string, id: string)
    requires action != [] && '/' !in action
    requires id != [] && '/' !in id
    ensures ParsePath(ControllerBase + "/" + action + "/" + id) == (action, id)
  {
    var path := ControllerBase + "/" + action + "/" + id;
    var p := ApiDir + "/" + GatewayScript;
    assert path == "/" + p + "/" + action + "/" + id;
    ParseSegments(p, action, id);
  }

  /** A logged-in start from the controller for diagnostic `n` reaches the
      service's start route for `n`, and its answer is passed through. */
  lemma ControllerStartIsForwarded(n: nat, requestUri: string, v: Visitor, image: ImageLookup, u: Upstream)
    requires Auth.IsLoggedIn(v.session)
    ensures var r := Route("POST", ControllerBase + "/start/" + NatToString(n), requestUri, v, AccessFound, image, u);
      && r.location.None? && r.session == v.session && r.cookie == Security.CookieUntouched
      && r.outcome.call == Some(Call("POST", "/capture/start/" + NatToString(n)))
      && (HttpCode(u) == 200 ==> r.outcome.status == 200 && Get(r.outcome.body.value, "data") == Some(u.data))
  {
    var id := NatToString(n);
    var path := ControllerBase + "/start/" + id;
    assert path == ControllerBase + "/" + "start" + "/" + id;
    ControllerPathParses("start", id);
    DigitsAreNumeric(id);
    assert !IdRejected(ParsePath(path).1);
  }

  /** `<base>/health` is split into the action `ecg_control.php` and the id
      `health`, which is not numeric: the health action cannot be reached
      without an id segment after it. */
  lemma HealthPathIsRejected(requestUri: string, v: Visitor, image: ImageLookup, access: Access, u: Upstream)
    requires Auth.IsLoggedIn(v.session)
    ensures ParsePath(ControllerBase + "/health") == ("ecg_control.php", "health")
    ensures Route("GET", ControllerBase + "/health", requestUri, v, access, image, u).outcome == ErrorOutcome(400, InvalidIdText)
  {
    HealthPathParses();
    HealthIsNotNumeric();
    assert IdRejected("health");
    assert Gated("GET", ControllerBase + "/health", access, image, u) == ErrorOutcome(400, InvalidIdText);
  }

  lemma HealthPathParses()
    ensures ParsePath(ControllerBase + "/health") == ("ecg_control.php", "health")
  {
    var path := ControllerBase + "/health";
    assert path == "/" + ApiDir + "/" + GatewayScript + "/" + "health";
    ParseSegments(ApiDir, GatewayScript, "health");
  }

  lemma HealthIsNotNumeric()
    ensures !IsNumeric("health")
  {
    NotNumericStart("health");
  }

  /** The id is empty only when the trimmed path is empty, and then there
      is no action either: the empty id let through by the id check always
      ends in 404. */
  lemma EmptyIdHasNoAction(path: string)
    requires ParsePath(path).1 == ""
    ensures ParsePath(path).0 == ""
  {
    var t := TrimSet(path, {'/'});
    if t != [] {
      SplitLastPieceNonEmpty(t, '/');
    }
  }
}
