/** The two routes of src/microfastapitodowebapp/router/auth.py as transitions of the
    session: `login` sets the resume target to `/` and starts the authorization redirect;
    `auth_callback` stores the exchanged token, stamped with the refresh token's expiry, and
    sends the browser back to the stored resume target, which it removes. */
module Auth {
  import opened Base
  import Middleware
  import OAuth

  /** The session after the callback and what the callback returned: `Ok(url)` is
      `RedirectResponse(url=url)`, `Err(e)` an exception escaping the route. */
  datatype Step = Step(entries: map<string, Value>, outcome: Result<Value>)

  /** The exchanged token, stamped with `refresh_expires_at = now + refresh_expires_in`. */
  function Stamped(token: map<string, Value>, now: int): (r: Result<map<string, Value>>)
    ensures r.Ok? <==> OAuth.RefreshExpiresIn in token && AsInt(token[OAuth.RefreshExpiresIn]).Some?
    ensures r.Ok? ==>
      && r.value.Keys == token.Keys + {Middleware.RefreshExpiresAt}
      && r.value[Middleware.RefreshExpiresAt] == Int(now + AsInt(token[OAuth.RefreshExpiresIn]).value)
      && forall k :: k in token && k != Middleware.RefreshExpiresAt ==> r.value[k] == token[k]
  {
    if OAuth.RefreshExpiresIn !in token then Err(KeyError(OAuth.RefreshExpiresIn))
    else match AsInt(token[OAuth.RefreshExpiresIn])
      case None => Err(TypeError)
      case Some(n) => Ok(token[Middleware.RefreshExpiresAt := Int(now + n)])
  }

  /** `auth_callback` at `now` (whole seconds), given the outcome of the code exchange. */
  function CallbackStep(entries: map<string, Value>, exchanged: Result<map<string, Value>>, now: int)
    : (s: Step)
    ensures exchanged.Err? ==> s == Step(entries, Err(exchanged.error))
    ensures exchanged.Ok? && Stamped(exchanged.value, now).Err? ==>
      s == Step(entries, Err(Stamped(exchanged.value, now).error))
    ensures exchanged.Ok? && Stamped(exchanged.value, now).Ok? ==>
      && Middleware.Token in s.entries
      && s.entries[Middleware.Token] == Dict(Stamped(exchanged.value, now).value)
      && Middleware.RedirectUrl !in s.entries
      && (forall k :: k in entries && k != Middleware.Token && k != Middleware.RedirectUrl ==>
            k in s.entries && s.entries[k] == entries[k])
      && s.entries.Keys == entries.Keys + {Middleware.Token} - {Middleware.RedirectUrl}
      && (Middleware.RedirectUrl in entries ==> s.outcome == Ok(entries[Middleware.RedirectUrl]))
      && (Middleware.RedirectUrl !in entries ==> s.outcome == Err(KeyError(Middleware.RedirectUrl)))
  {
    match exchanged
    case Err(e) => Step(entries, Err(e))
    case Ok(token) =>
      match Stamped(token, now)
      case Err(e) => Step(entries, Err(e))
      case Ok(stamped) =>
        var withToken := entries[Middleware.Token := Dict(stamped)];
        if Middleware.RedirectUrl in withToken
        then Step(withToken - {Middleware.RedirectUrl}, Ok(withToken[Middleware.RedirectUrl]))
        else Step(withToken, Err(KeyError(Middleware.RedirectUrl)))
  }

  /** `login`: the resume target becomes `/` and the authorization redirect starts, with
      the callback route as its return address. */
  method Login(request: Middleware.Request, session: Session) returns (redirectUri: string)
    modifies session
    ensures session.entries == old(session.entries)[Middleware.RedirectUrl := Str("/")]
    ensures redirectUri == request.origin + Middleware.CallbackPath
  {
    redirectUri := request.origin + Middleware.CallbackPath;
    session.entries := session.entries[Middleware.RedirectUrl := Str("/")];
  }

  /** `auth_callback`. The token is stored before `redirect_url` is read, so a session without
      a resume target keeps the new token and the route raises KeyError. */
  method AuthCallback(session: Session, exchanged: Result<map<string, Value>>, now: int)
    returns (outcome: Result<Value>)
    modifies session
    ensures Step(session.entries, outcome) == CallbackStep(old(session.entries), exchanged, now)
  {
    if exchanged.Err? {
      return Err(exchanged.error);
    }
    var token := exchanged.value;
    if OAuth.RefreshExpiresIn !in token {
      return Err(KeyError(OAuth.RefreshExpiresIn));
    }
    var refreshExpiresIn := AsInt(token[OAuth.RefreshExpiresIn]);
    if refreshExpiresIn.None? {
      return Err(TypeError);
    }
    token := token[Middleware.RefreshExpiresAt := Int(now + refreshExpiresIn.value)];
    session.entries := session.entries[Middleware.Token := Dict(token)];
    if Middleware.RedirectUrl !in session.entries {
      return Err(KeyError(Middleware.RedirectUrl));
    }
    var redirectUrl := session.entries[Middleware.RedirectUrl];
    session.entries := session.entries - {Middleware.RedirectUrl};
    return Ok(redirectUrl);
  }

  /** After a callback at time `t`, a non-public request that carries the session cookie is
      let through exactly while `now < t + refresh_expires_in`, whatever the session held
      before (even when the callback itself raised for want of a resume target). */
  lemma CallbackAdmitsUntilRefreshExpiry(r: Middleware.Request, entries: map<string, Value>,
                                         token: map<string, Value>, t: int, now: int)
    requires Stamped(token, t).Ok?
    requires !Middleware.IsPublic(Middleware.PublicUrls, r.path) && Middleware.HasSessionCookie(r)
    ensures var after := CallbackStep(entries, Ok(token), t).entries;
      (Middleware.Decide(Middleware.PublicUrls, r, after, now) == Middleware.Proceed
       <==> now < t + AsInt(token[OAuth.RefreshExpiresIn]).value)
  {
    var after := CallbackStep(entries, Ok(token), t).entries;
    assert Middleware.RefreshExpiry(after) == Some(t + AsInt(token[OAuth.RefreshExpiresIn]).value);
  }

  /** A challenge followed by a successful callback sends the browser back to the target
      the guard stored, and leaves no resume target behind. */
  lemma ChallengeThenCallbackResumes(r: Middleware.Request, entries: map<string, Value>,
                                     token: map<string, Value>, t: int)
    requires Stamped(token, t).Ok?
    ensures var stored := entries[Middleware.RedirectUrl := Str(Middleware.RedirectTarget(r))];
      var s := CallbackStep(stored, Ok(token), t);
      s.outcome == Ok(Str(Middleware.RedirectTarget(r))) && Middleware.RedirectUrl !in s.entries
  {
  }

  /** `login` followed by a successful callback lands on `/`. */
  lemma LoginThenCallbackGoesHome(entries: map<string, Value>, token: map<string, Value>, t: int)
    requires Stamped(token, t).Ok?
    ensures CallbackStep(entries[Middleware.RedirectUrl := Str("/")], Ok(token), t).outcome == Ok(Str("/"))
  {
  }
}
