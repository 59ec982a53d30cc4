/** The two middlewares of src/microfastapitodowebapp/config/middleware.py: the auth guard,
    which lets a request through or challenges it with the authorize redirect, and the HTMX
    adapter, which turns a redirect to the identity provider into a client-side redirect. */
module Middleware {
  import opened Base
  import Glob

  const Token := "token"
  const RedirectUrl := "redirect_url"
  const RefreshExpiresAt := "refresh_expires_at"
  const SessionCookie := "session"

  /** The path of the route named `auth_callback` (prefix `/login` plus `/oauth2/code/keycloak`
      in router/auth.py). */
  const CallbackPath := "/login/oauth2/code/keycloak"

  /** The public patterns the application installs the guard with (main.py). */
  const PublicUrls: seq<string> := ["/", "/favicon.ico", "/login**", "/static/**"]

  /** The redirect statuses of section 15.4 of RFC 9110 that the HTMX adapter rewrites. */
  const RedirectStatuses: set<int> := {301, 302, 303, 307, 308}

  /** The parts of an inbound request the middlewares read. Header names are lower-case,
      as Starlette stores them. `origin` is the scheme and authority (`http://host:port`). */
  datatype Request = Request(
    origin: string,
    path: string,
    query: string,
    headers: map<string, string>,
    cookies: map<string, string>)

  /** `str(request.url)`: the full URL, with `?query` when the query is non-empty. */
  function Url(r: Request): string {
    r.origin + r.path + (if r.query != "" then "?" + r.query else "")
  }

  /** `request.headers.get(name)` is truthy. */
  predicate HeaderSet(r: Request, name: string) {
    name in r.headers && r.headers[name] != ""
  }

  /** `request.cookies.get("session")` is truthy. */
  predicate HasSessionCookie(r: Request) {
    SessionCookie in r.cookies && r.cookies[SessionCookie] != ""
  }

  /** The request comes from HTMX and says which page it was fired from. */
  predicate FromHtmxPage(r: Request) {
    HeaderSet(r, "hx-request") && HeaderSet(r, "hx-current-url")
  }

  /** `should_skip` as a statement: some pattern matches the path. */
  predicate IsPublic(patterns: seq<string>, path: string) {
    exists i :: 0 <= i < |patterns| && Glob.Match(patterns[i], path)
  }

  /** The `refresh_expires_at` of the session's token, when the session holds a token dict
      whose entry is a number. */
  function RefreshExpiry(entries: map<string, Value>): Option<int> {
    if Token in entries && entries[Token].Dict? && RefreshExpiresAt in entries[Token].fields
    then AsInt(entries[Token].fields[RefreshExpiresAt])
    else None
  }

  /** What the guard does with a request. */
  datatype Decision =
    | Proceed                        // `call_next(request)`
    | Challenge(redirectUri: string) // `authorize_redirect(request, redirect_uri)`
    | Fail(error: Error)             // an exception escapes the guard

  /** The decision of lines 40-62 as a function of the request, the session and the clock
      (whole seconds; `refresh_expires_at` is an int, so `at > now` is the same on the
      floor of the float timestamp). */
  function Decide(patterns: seq<string>, r: Request, entries: map<string, Value>, now: int): (d: Decision)
    ensures IsPublic(patterns, r.path) ==> d == Proceed
    ensures !IsPublic(patterns, r.path) ==>
      (d == Proceed <==>
        HasSessionCookie(r) && RefreshExpiry(entries).Some? && RefreshExpiry(entries).value > now)
    ensures d.Challenge? <==>
      !IsPublic(patterns, r.path) &&
      (!HasSessionCookie(r) || Token !in entries ||
       (RefreshExpiry(entries).Some? && RefreshExpiry(entries).value <= now))
    ensures d.Challenge? ==> d.redirectUri == r.origin + CallbackPath
    ensures d.Fail? ==> !IsPublic(patterns, r.path) && HasSessionCookie(r) && Token in entries
  {
    if IsPublic(patterns, r.path) then Proceed
    else if HasSessionCookie(r) && Token in entries then
      match Subscript(entries[Token], RefreshExpiresAt)
      case Err(e) => Fail(e)
      case Ok(v) =>
        match AsInt(v)
        case None => Fail(TypeError)
        case Some(at) => if at > now then Proceed else Challenge(r.origin + CallbackPath)
    else Challenge(r.origin + CallbackPath)
  }

  /** The `redirect_url` the guard stores, built as lines 54-59 build it. */
  function RedirectTarget(r: Request): string {
    (if FromHtmxPage(r) then r.headers["hx-current-url"] else Url(r))
    + (if r.query != "" then "?" + r.query else "")
  }

  /** The guard as the application installs it. */
  class AuthGuard {
    const callbackName: string
    const publicUrls: seq<string>

    constructor (callbackName: string, publicUrls: seq<string>)
      ensures this.callbackName == callbackName && this.publicUrls == publicUrls
    {
      this.callbackName := callbackName;
      this.publicUrls := publicUrls;
    }

    /** `should_skip`: the first matching pattern ends the search. */
    method ShouldSkip(path: string) returns (skip: bool)
      ensures skip <==> IsPublic(publicUrls, path)
    {
      for i := 0 to |publicUrls|
        invariant forall j :: 0 <= j < i ==> !Glob.Match(publicUrls[j], path)
      {
        if Glob.Match(publicUrls[i], path) {
          return true;
        }
      }
      return false;
    }

    /** `dispatch`. A public path, or a live token, goes through with the session
        untouched; a challenge writes `redirect_url` and nothing else (an expired token
        stays where it is); a malformed token makes the guard raise. */
    method Dispatch(request: Request, session: Session, now: int) returns (d: Decision)
      modifies session
      ensures d == Decide(publicUrls, request, old(session.entries), now)
      ensures d.Challenge? ==>
        session.entries == old(session.entries)[RedirectUrl := Str(RedirectTarget(request))]
      ensures !d.Challenge? ==> session.entries == old(session.entries)
    {
      var skip := ShouldSkip(request.path);
      if skip {
        return Proceed;
      }
      if HasSessionCookie(request) {
        if Token in session.entries {
          var accessToken := session.entries[Token];
          var field := Subscript(accessToken, RefreshExpiresAt);
          if field.Err? {
            return Fail(field.error);
          }
          var at := AsInt(field.value);
          if at.None? {
            return Fail(TypeError);
          }
          if at.value > now {
            return Proceed;
          }
        }
      }
      var redirectUrl;
      if FromHtmxPage(request) {
        redirectUrl := request.headers["hx-current-url"];
      } else {
        redirectUrl := Url(request);
      }
      if request.query != "" {
        redirectUrl := redirectUrl + ("?" + request.query);
      }
      assert redirectUrl == RedirectTarget(request);
      session.entries := session.entries[RedirectUrl := Str(redirectUrl)];
      return Challenge(request.origin + CallbackPath);
    }
  }

  /** Every path under `/login` and `/static/` is public, and so are `/` and `/favicon.ico`. */
  lemma PublicPrefixes(suffix: string)
    ensures IsPublic(PublicUrls, "/login" + suffix)
    ensures IsPublic(PublicUrls, "/static/" + suffix)
    ensures IsPublic(PublicUrls, "/") && IsPublic(PublicUrls, "/favicon.ico")
  {
    var stars := "**";
    Glob.StarsMatchAll(stars, suffix);
    PrefixThenStars("/login", suffix);
    PrefixThenStars("/static/", suffix);
    assert PublicUrls[2] == "/login" + stars;
    assert PublicUrls[3] == "/static/" + stars;
    Glob.LiteralMatchesOnlyItself(PublicUrls[0], "/");
    Glob.LiteralMatchesOnlyItself(PublicUrls[1], "/favicon.ico");
  }

  lemma PrefixThenStars(lit: string, suffix: string)
    requires Glob.Literal(lit)
    ensures Glob.Match(lit + "**", lit + suffix)
  {
    Glob.StarsMatchAll("**", suffix);
    Glob.LiteralPrefixMatches(lit, "**", suffix);
  }

  /** The login and callback routes are public; `/static` without its slash and the
      dashboard are not. */
  lemma PublicPathExamples()
    ensures IsPublic(PublicUrls, "/login")
    ensures IsPublic(PublicUrls, CallbackPath)
    ensures !IsPublic(PublicUrls, "/static")
    ensures !IsPublic(PublicUrls, "/dashboard")
  {
    LoginIsPublic();
    CallbackIsPublic();
    StaticIsNotPublic();
    DashboardIsNotPublic();
  }

  lemma LoginIsPublic() ensures IsPublic(PublicUrls, "/login") {
    PublicPrefixes("");
    assert "/login" + "" == "/login";
  }

  lemma CallbackIsPublic() ensures IsPublic(PublicUrls, CallbackPath) {
    var tail := CallbackPath[6..];
    PublicPrefixes(tail);
    assert CallbackPath[..6] == "/login";
    assert CallbackPath == CallbackPath[..6] + tail;
  }

  lemma StaticIsNotPublic() ensures !IsPublic(PublicUrls, "/static") {
    var p := "/static";
    assert |p| < 8 && p[..6][1] != "/login"[1];
    NotPublic(p);
  }

  lemma DashboardIsNotPublic() ensures !IsPublic(PublicUrls, "/dashboard") {
    var p := "/dashboard";
    assert p[..6][1] != "/login"[1] && p[..8][1] != "/static/"[1];
    assert p != "/favicon.ico" by { assert |p| != |"/favicon.ico"|; }
    NotPublic(p);
  }

  /** A path that is neither `/` nor `/favicon.ico` and starts with neither `/login` nor
      `/static/` matches no public pattern. */
  lemma NotPublic(path: string)
    requires path != "/" && path != "/favicon.ico"
    requires !(|path| >= 6 && path[..6] == "/login")
    requires !(|path| >= 8 && path[..8] == "/static/")
    ensures !IsPublic(PublicUrls, path)
  {
    var stars := "**";
    Glob.LiteralMatchesOnlyItself(PublicUrls[0], path);
    Glob.LiteralMatchesOnlyItself(PublicUrls[1], path);
    assert PublicUrls[2] == "/login" + stars;
    if Glob.Match(PublicUrls[2], path) {
      Glob.LiteralPrefixRequired("/login", stars, path);
    }
    assert PublicUrls[3] == "/static/" + stars;
    if Glob.Match(PublicUrls[3], path) {
      Glob.LiteralPrefixRequired("/static/", stars, path);
    }
  }

  /** As written, a plain (non-HTMX) challenge with a query stores the query twice:
      `str(request.url)` already ends with it. */
  lemma RedirectTargetRepeatsQuery(r: Request)
    requires !FromHtmxPage(r) && r.query != ""
    ensures RedirectTarget(r) == r.origin + r.path + "?" + r.query + "?" + r.query
  {
  }

  /** The input that shows it. */
  lemma RedirectTargetExample()
    ensures RedirectTarget(Request("http://app", "/todos", "page=2", map[], map[]))
         == "http://app/todos?page=2?page=2"
  {
    var r := Request("http://app", "/todos", "page=2", map[], map[]);
    assert !FromHtmxPage(r);
    RedirectTargetRepeatsQuery(r);
    assert "http://app" + "/todos" + "?" == "http://app/todos?";
    assert "http://app/todos?" + "page=2" + "?" == "http://app/todos?page=2?";
  }

  /** The evidently intended resume target: the URL the browser asked for, or, for an HTMX
      request fired from a page, that page's URL. */
  function IntendedRedirectTarget(r: Request): (t: string)
    ensures FromHtmxPage(r) ==> t == r.headers["hx-current-url"]
    ensures !FromHtmxPage(r) ==> t == Url(r)
  {
    if FromHtmxPage(r) then r.headers["hx-current-url"] else Url(r)
  }

  /** With the intended target, the query string of a plain request appears once: the
      target is exactly the path followed by `?` and the query. */
  lemma IntendedTargetKeepsQueryOnce(r: Request)
    requires !FromHtmxPage(r) && r.query != ""
    ensures IntendedRedirectTarget(r) == r.origin + r.path + "?" + r.query
    ensures IntendedRedirectTarget(r) != RedirectTarget(r)
  {
    var t := IntendedRedirectTarget(r);
    assert |RedirectTarget(r)| == |t| + 1 + |r.query|;
  }

  /** `python in`: `sub` occurs somewhere in `s`. */
  predicate Contains(s: string, sub: string)
    decreases |s|
  {
    sub <= s || (s != [] && Contains(s[1..], sub))
  }

  /** `Contains` holds exactly when `sub` starts at some position of `s`. */
  lemma {:induction false} ContainsAt(s: string, sub: string)
    ensures Contains(s, sub) <==> exists i :: 0 <= i <= |s| && sub <= s[i..]
    decreases |s|
  {
    if s != [] {
      ContainsAt(s[1..], sub);
      if exists i :: 0 <= i <= |s| && sub <= s[i..] {
        var i :| 0 <= i <= |s| && sub <= s[i..];
        if i > 0 {
          assert s[1..][i - 1..] == s[i..];
        }
      }
      if Contains(s[1..], sub) {
        var i :| 0 <= i <= |s[1..]| && sub <= s[1..][i..];
        assert s[1..][i..] == s[i + 1..];
      }
    } else {
      assert s[0..] == s;
    }
  }

  /** A response as the adapter sees it. Header names are lower-case. */
  datatype Response = Response(status: int, headers: map<string, string>)

  /** The condition under which the adapter replaces the response. */
  predicate RewritesTo(request: Request, response: Response, authServerHost: string) {
    && HeaderSet(request, "hx-request")
    && response.status in RedirectStatuses
    && "location" in response.headers
    && Contains(response.headers["location"], authServerHost)
  }

  /** The adapter's outcome (lines 67-78). */
  function HtmxRewrite(request: Request, response: Response, authServerHost: string): (r: Result<Response>)
    ensures RewritesTo(request, response, authServerHost) ==>
      && r.Ok? && r.value.status == 200
      && r.value.headers.Keys <= {"content-length", "hx-redirect", "set-cookie"}
      && "content-length" in r.value.headers && r.value.headers["content-length"] == "0"
      && "hx-redirect" in r.value.headers
      && r.value.headers["hx-redirect"] == response.headers["location"]
      && ("set-cookie" in r.value.headers <==>
            "set-cookie" in response.headers && response.headers["set-cookie"] != "")
      && ("set-cookie" in r.value.headers ==>
            r.value.headers["set-cookie"] == response.headers["set-cookie"])
    ensures (HeaderSet(request, "hx-request") && response.status in RedirectStatuses
             && "location" !in response.headers) ==> r == Err(TypeError)
    ensures (!RewritesTo(request, response, authServerHost)
             && !(HeaderSet(request, "hx-request") && response.status in RedirectStatuses
                  && "location" !in response.headers)) ==> r == Ok(response)
  {
    if HeaderSet(request, "hx-request") && response.status in RedirectStatuses then
      if "location" !in response.headers then Err(TypeError)
      else
        var location := response.headers["location"];
        if Contains(location, authServerHost) then
          var headers := map["content-length" := "0", "hx-redirect" := location];
          if "set-cookie" in response.headers && response.headers["set-cookie"] != ""
          then Ok(Response(200, headers["set-cookie" := response.headers["set-cookie"]]))
          else Ok(Response(200, headers))
        else Ok(response)
    else Ok(response)
  }

  /** `HTMXRedirectMiddleware.dispatch`, given the downstream response: the new response is
      built and its headers are set one by one. */
  method HtmxDispatch(request: Request, response: Response, authServerHost: string)
    returns (r: Result<Response>)
    ensures r == HtmxRewrite(request, response, authServerHost)
  {
    if HeaderSet(request, "hx-request") {
      if response.status in RedirectStatuses {
        if "location" !in response.headers {
          return Err(TypeError);
        }
        var location := response.headers["location"];
        if Contains(location, authServerHost) {
          var newResponse := Response(200, map["content-length" := "0"]);
          newResponse := newResponse.(headers := newResponse.headers["hx-redirect" := location]);
          if "set-cookie" in response.headers && response.headers["set-cookie"] != "" {
            var cookieVal := response.headers["set-cookie"];
            newResponse := newResponse.(headers := newResponse.headers["set-cookie" := cookieVal]);
          }
          return Ok(newResponse);
        }
      }
    }
    return Ok(response);
  }

  /** The redirect of the identity provider reaches an HTMX client as a 200 with
      `HX-Redirect`; the same redirect without `HX-Request` passes through. */
  lemma HtmxExample()
    ensures var loc := "https://idp/auth";
      var resp := Response(302, map["location" := loc]);
      && HtmxRewrite(Request("http://app", "/todos", "", map["hx-request" := "true"], map[]), resp, "idp")
         == Ok(Response(200, map["content-length" := "0", "hx-redirect" := loc]))
      && HtmxRewrite(Request("http://app", "/todos", "", map[], map[]), resp, "idp")
         == Ok(resp)
  {
    var loc := "https://idp/auth";
    assert "idp" <= loc[8..];
    ContainsAt(loc, "idp");
  }
}
