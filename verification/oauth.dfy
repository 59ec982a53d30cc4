/** The session-backed token store of src/microfastapitodowebapp/config/oauth.py: the
    `fetch_token` projection the OAuth client reads and the `update_token` callback it calls
    after refreshing a token. The client registration itself is not part of this model. */
module OAuth {
  import opened Base
  import Middleware

  const AccessToken := "access_token"
  const TokenType := "token_type"
  const RefreshToken := "refresh_token"
  const ExpiresAt := "expires_at"
  const ExpiresIn := "expires_in"
  const RefreshExpiresIn := "refresh_expires_in"
  const UserInfo := "userinfo"

  /** The four keys `fetch_token` hands to the client. */
  const FetchedKeys: set<string> := {AccessToken, TokenType, RefreshToken, ExpiresAt}

  /** `fetch_token`: the four client-facing fields of the session's token and nothing else
      (`userinfo` and `refresh_expires_at` stay behind). A missing token raises TypeError
      (`None[...]`), a missing field KeyError. */
  function FetchToken(entries: map<string, Value>): (r: Result<map<string, Value>>)
    ensures r.Ok? <==>
      Middleware.Token in entries && entries[Middleware.Token].Dict?
      && FetchedKeys <= entries[Middleware.Token].fields.Keys
    ensures r.Ok? ==> r.value.Keys == FetchedKeys
    ensures r.Ok? ==> forall k :: k in r.value ==> r.value[k] == entries[Middleware.Token].fields[k]
    ensures Middleware.Token !in entries || !entries[Middleware.Token].Dict? ==> r == Err(TypeError)
    ensures r.Err? && r.error.KeyError? ==>
      r.error.key in FetchedKeys && r.error.key !in entries[Middleware.Token].fields
    ensures Middleware.Token in entries && entries[Middleware.Token].Dict? ==>
      var f := entries[Middleware.Token].fields;
      && (AccessToken !in f ==> r == Err(KeyError(AccessToken)))
      && (AccessToken in f && TokenType !in f ==> r == Err(KeyError(TokenType)))
      && (AccessToken in f && TokenType in f && RefreshToken !in f ==> r == Err(KeyError(RefreshToken)))
      && (AccessToken in f && TokenType in f && RefreshToken in f && ExpiresAt !in f ==>
            r == Err(KeyError(ExpiresAt)))
  {
    var token := Get(entries, Middleware.Token);
    var accessToken :- Subscript(token, AccessToken);
    var tokenType :- Subscript(token, TokenType);
    var refreshToken :- Subscript(token, RefreshToken);
    var expiresAt :- Subscript(token, ExpiresAt);
    Ok(map[AccessToken := accessToken, TokenType := tokenType,
           RefreshToken := refreshToken, ExpiresAt := expiresAt])
  }

  /** The session after `update_token(token)` at `now` (whole seconds), or the error it
      raises; on an error the session is as it was. */
  function Refreshed(entries: map<string, Value>, token: map<string, Value>, now: int)
    : (r: Result<map<string, Value>>)
    ensures Middleware.Token !in entries ==> r == Err(KeyError(Middleware.Token))
    ensures Middleware.Token in entries && !entries[Middleware.Token].Dict? ==> r == Err(TypeError)
    ensures (Middleware.Token in entries && entries[Middleware.Token].Dict?
             && UserInfo !in entries[Middleware.Token].fields) ==> r == Err(KeyError(UserInfo))
    ensures (Middleware.Token in entries && entries[Middleware.Token].Dict?
             && UserInfo in entries[Middleware.Token].fields) ==>
      && (ExpiresIn !in token ==> r == Err(KeyError(ExpiresIn)))
      && (ExpiresIn in token && AsInt(token[ExpiresIn]).None? ==> r == Err(TypeError))
    ensures r.Ok? <==>
      && Middleware.Token in entries
      && entries[Middleware.Token].Dict? && UserInfo in entries[Middleware.Token].fields
      && ExpiresIn in token && AsInt(token[ExpiresIn]).Some?
    ensures r.Ok? ==> r.value.Keys == entries.Keys
    ensures r.Ok? ==> forall k :: k in entries && k != Middleware.Token ==> r.value[k] == entries[k]
    ensures r.Ok? ==>
      var merged := r.value[Middleware.Token];
      && merged.Dict?
      && merged.fields.Keys == token.Keys + {UserInfo, Middleware.RefreshExpiresAt}
      && merged.fields[UserInfo] == entries[Middleware.Token].fields[UserInfo]
      && merged.fields[Middleware.RefreshExpiresAt] == Int(now + AsInt(token[ExpiresIn]).value)
      && (forall k :: k in token && k != UserInfo && k != Middleware.RefreshExpiresAt ==>
            merged.fields[k] == token[k])
  {
    if Middleware.Token !in entries then Err(KeyError(Middleware.Token))
    else
      var userinfo :- Subscript(entries[Middleware.Token], UserInfo);
      var withUser := token[UserInfo := userinfo];
      if ExpiresIn !in withUser then Err(KeyError(ExpiresIn))
      else match AsInt(withUser[ExpiresIn])
        case None => Err(TypeError)
        case Some(n) =>
          Ok(entries[Middleware.Token := Dict(withUser[Middleware.RefreshExpiresAt := Int(now + n)])])
  }

  /** `update_token`: copies the stored `userinfo` into the new token, stamps it with
      `refresh_expires_at = now + expires_in`, and stores it as the session's token. The
      `accessToken` and `refreshToken` arguments are accepted and ignored. */
  method UpdateToken(session: Session, token: map<string, Value>, now: int,
                     accessToken: Option<string>, refreshToken: Option<string>)
    returns (r: Result<()>)
    modifies session
    ensures Refreshed(old(session.entries), token, now).Ok? ==>
      r == Ok(()) && session.entries == Refreshed(old(session.entries), token, now).value
    ensures Refreshed(old(session.entries), token, now).Err? ==>
      r == Err(Refreshed(old(session.entries), token, now).error)
      && session.entries == old(session.entries)
  {
    if Middleware.Token !in session.entries {
      return Err(KeyError(Middleware.Token));
    }
    var userinfo := Subscript(session.entries[Middleware.Token], UserInfo);
    if userinfo.Err? {
      return Err(userinfo.error);
    }
    var t := token[UserInfo := userinfo.value];
    if ExpiresIn !in t {
      return Err(KeyError(ExpiresIn));
    }
    var expiresIn := AsInt(t[ExpiresIn]);
    if expiresIn.None? {
      return Err(TypeError);
    }
    t := t[Middleware.RefreshExpiresAt := Int(now + expiresIn.value)];
    session.entries := session.entries[Middleware.Token := Dict(t)];
    return Ok(());
  }

  /** After a refresh at time `t`, a non-public request with the session cookie gets through
      the guard exactly while `now < t + expires_in`. */
  lemma RefreshAdmitsUntilExpiresIn(r: Middleware.Request, entries: map<string, Value>,
                                    token: map<string, Value>, t: int, now: int)
    requires Refreshed(entries, token, t).Ok?
    requires !Middleware.IsPublic(Middleware.PublicUrls, r.path) && Middleware.HasSessionCookie(r)
    ensures Middleware.Decide(Middleware.PublicUrls, r, Refreshed(entries, token, t).value, now)
              == Middleware.Proceed
        <==> now < t + AsInt(token[ExpiresIn]).value
  {
    var e := Refreshed(entries, token, t).value;
    assert Middleware.RefreshExpiry(e) == Some(t + AsInt(token[ExpiresIn]).value);
  }

  /** The evidently intended refresh: the session's liveness is recomputed from the refresh
      token's lifetime, as the callback of router/auth.py computes it. */
  function IntendedRefreshed(entries: map<string, Value>, token: map<string, Value>, now: int)
    : (r: Result<map<string, Value>>)
    ensures (Middleware.Token in entries && entries[Middleware.Token].Dict?
             && UserInfo in entries[Middleware.Token].fields) ==>
      && (RefreshExpiresIn !in token ==> r == Err(KeyError(RefreshExpiresIn)))
      && (RefreshExpiresIn in token && AsInt(token[RefreshExpiresIn]).None? ==> r == Err(TypeError))
    ensures r.Ok? <==>
      && Middleware.Token in entries
      && entries[Middleware.Token].Dict? && UserInfo in entries[Middleware.Token].fields
      && RefreshExpiresIn in token && AsInt(token[RefreshExpiresIn]).Some?
    ensures r.Ok? ==> r.value.Keys == entries.Keys
    ensures r.Ok? ==> Middleware.RefreshExpiry(r.value) == Some(now + AsInt(token[RefreshExpiresIn]).value)
    ensures r.Ok? ==>
      && r.value[Middleware.Token].Dict? && UserInfo in r.value[Middleware.Token].fields
      && r.value[Middleware.Token].fields[UserInfo] == entries[Middleware.Token].fields[UserInfo]
  {
    if Middleware.Token !in entries then Err(KeyError(Middleware.Token))
    else
      var userinfo :- Subscript(entries[Middleware.Token], UserInfo);
      var withUser := token[UserInfo := userinfo];
      if RefreshExpiresIn !in withUser then Err(KeyError(RefreshExpiresIn))
      else match AsInt(withUser[RefreshExpiresIn])
        case None => Err(TypeError)
        case Some(n) =>
          Ok(entries[Middleware.Token := Dict(withUser[Middleware.RefreshExpiresAt := Int(now + n)])])
  }

  /** With the intended refresh the guard admits until `t + refresh_expires_in`, the same
      window the login callback opens. */
  lemma IntendedRefreshAdmitsUntilRefreshExpiry(r: Middleware.Request, entries: map<string, Value>,
                                                token: map<string, Value>, t: int, now: int)
    requires IntendedRefreshed(entries, token, t).Ok?
    requires !Middleware.IsPublic(Middleware.PublicUrls, r.path) && Middleware.HasSessionCookie(r)
    ensures Middleware.Decide(Middleware.PublicUrls, r, IntendedRefreshed(entries, token, t).value, now)
              == Middleware.Proceed
        <==> now < t + AsInt(token[RefreshExpiresIn]).value
  {
  }

  /** The input that shows the difference: an access token good for 300 s and a refresh
      token good for 1800 s, refreshed at t = 1000; at now = 1400 the guard challenges,
      though the refresh token is still valid and the intended refresh admits. */
  lemma RefreshExpiresEarlyExample(r: Middleware.Request)
    requires !Middleware.IsPublic(Middleware.PublicUrls, r.path) && Middleware.HasSessionCookie(r)
    ensures var entries := map[Middleware.Token := Dict(map[UserInfo := Dict(map[])])];
      var token := map[AccessToken := Str("a2"), ExpiresIn := Int(300), RefreshExpiresIn := Int(1800)];
      && Refreshed(entries, token, 1000).Ok?
      && Middleware.Decide(Middleware.PublicUrls, r, Refreshed(entries, token, 1000).value, 1400).Challenge?
      && IntendedRefreshed(entries, token, 1000).Ok?
      && Middleware.Decide(Middleware.PublicUrls, r, IntendedRefreshed(entries, token, 1000).value, 1400)
           == Middleware.Proceed
  {
    var entries := map[Middleware.Token := Dict(map[UserInfo := Dict(map[])])];
    var token := map[AccessToken := Str("a2"), ExpiresIn := Int(300), RefreshExpiresIn := Int(1800)];
    RefreshAdmitsUntilExpiresIn(r, entries, token, 1000, 1400);
    IntendedRefreshAdmitsUntilRefreshExpiry(r, entries, token, 1000, 1400);
  }
}
