# MicroFastApiTodoWebApp: a Dafny model of the web front end's core

This is a model of the server-rendered to-do front end. It covers:

- **The authentication path:**
  - the auth guard, which lets a request through or starts the OAuth authorization redirect and records where to resume;
  - the HTMX adapter, which turns a redirect to the identity provider into an `HX-Redirect`;
  - the session-backed token store of the OAuth client (`fetch_token`, `update_token`);
  - the `login` and `auth_callback` routes.
- **The form helper:**
  - list defaults and the deadline parse;
  - the create and patch bodies;
  - the choice of toast;
  - the two share operations. `create_shares_from_form` shares a new to-do with every address of the form. `sync_shares_from_form` reconciles the upstream's shares with the form.
- **The query side:**
  - `TodoQuery.to_dict` and the query modes;
  - `build_url` with its search rewrite;
  - decoding of a `Todo` and of a paged `TodoResponse`.

One module per source file:

| module | file | what it holds |
|---|---|---|
| `Base` | (shared) | Python values, exceptions as an `Error` datatype, datetimes, the session as a class `Session` with a mutable `entries` map |
| `Text` | (shared) | `str.isspace` and `str.strip()` |
| `Glob` | (shared) | POSIX `fnmatch.fnmatch` |
| `Middleware` | `middleware.py` | guard and HTMX adapter |
| `OAuth` | `oauth.py` | token store |
| `Auth` | `router/auth.py` | `login`, `auth_callback` |
| `Query` | `domain/query.py` | `TodoQuery.to_dict`, query modes |
| `UrlHelper` | `url_helper.py` | `build_url`, search rewrite |
| `TodoModel` | `model/todo.py` | `Todo` decoding |
| `ResponseModel` | `model/todo_response.py` | paged response |
| `Requests` | request models | request types only |
| `FormHelper` | `todo_form_helper.py` | pure half |
| `ShareSync` | `todo_form_helper.py` | share half |

Session handlers are methods that modify the `Session` object. The guard, `update_token` and the callback are each proved equal to a pure step function (`Decide`, `Refreshed`, `CallbackStep`), and the lemmas are stated about those functions. `login` states its new session directly.

The upstream share service is a class `ShareService`. It holds the shares of one to-do (address to access level) and a log of the calls made to it. Each call may succeed or fail: the success is chosen nondeterministically, so every property holds for every pattern of failures. A failed call changes nothing.

Iterating a Python `set` is modelled by picking an arbitrary remaining element. A ghost list records the order in which the elements were visited.

The following are parameters, not modelled code:

- the clock: whole seconds for the guard and the tokens, microseconds for the patch deadline;
- `datetime.strptime` and `datetime.fromisoformat`: partial parsers given as functions;
- the outcome of the authorization-code exchange.

## Model

| member | source | states |
|---|---|---|
| Text.IsSpace | src/microfastapitodowebapp/util/url_helper.py:23 | definition: the characters Python's `str.isspace` accepts |
| Text.Strip | src/microfastapitodowebapp/util/todo_form_helper.py:96 | definition of `str.strip()`: whitespace dropped from either end until neither end is whitespace; the Text lemmas state its properties |
| Text.StripTrimmed | src/microfastapitodowebapp/util/todo_form_helper.py:96 | what `strip()` leaves is empty or has no whitespace at either end |
| Text.StripIsTrimmedInfix | src/microfastapitodowebapp/util/todo_form_helper.py:131 | what `strip()` keeps is a contiguous piece of the input, with only whitespace cut off on either side |
| Text.StripCut | src/microfastapitodowebapp/util/todo_form_helper.py:131 | gives the position at which `strip()` cuts the input: all whitespace before and after the kept piece |
| Text.StripEmptyIffAllSpace | src/microfastapitodowebapp/util/url_helper.py:23 | a string strips to nothing exactly when every character is whitespace (both directions) |
| Text.StripKeepsTrimmed | src/microfastapitodowebapp/util/todo_form_helper.py:26 | a string with no whitespace at either end strips to itself |
| Text.StripIdempotent | src/microfastapitodowebapp/util/todo_form_helper.py:26 | stripping twice equals stripping once |
| Glob.Match | src/microfastapitodowebapp/config/middleware.py:35 | definition of `fnmatch.fnmatch`: `*` any run of characters, `?` one character, any other pattern character itself; the Glob lemmas state its properties |
| Glob.StarsMatchAll | src/microfastapitodowebapp/config/middleware.py:33-37 | a pattern of stars matches every path, `/` included (fnmatch's `*` crosses slashes) |
| Glob.LiteralPrefixMatches | src/microfastapitodowebapp/config/middleware.py:33-37 | a literal pattern prefix matches the same prefix of the path |
| Glob.LiteralPrefixRequired | src/microfastapitodowebapp/config/middleware.py:33-37 | a path matched by a pattern that starts with a literal starts with that literal |
| Glob.LiteralMatchesOnlyItself | src/microfastapitodowebapp/config/middleware.py:33-37 | a pattern without wildcards matches exactly itself (both directions) |
| Glob.LiteralAllConsumed | src/microfastapitodowebapp/config/middleware.py:33-37 | a literal pattern matches only a path of its own length |
| Middleware.Decide | src/microfastapitodowebapp/config/middleware.py:39-62 | public path ⇒ proceed. Otherwise it proceeds iff there is a session cookie and a token whose `refresh_expires_at` is later than now. It challenges iff there is no cookie, no token, or an expired token; the challenge goes to the callback URL. A malformed token is an error |
| Middleware.AuthGuard.constructor | src/microfastapitodowebapp/config/middleware.py:28-31 | keeps the callback name and the public patterns |
| Middleware.AuthGuard.ShouldSkip | src/microfastapitodowebapp/config/middleware.py:33-37 | true iff some public pattern matches the path |
| Middleware.AuthGuard.Dispatch | src/microfastapitodowebapp/config/middleware.py:39-62 | returns `Decide`. A challenge writes `redirect_url` as built at lines 54-59, and no other entry of the application's own (authlib's state entry is left out). Every other outcome leaves the session untouched, an expired token included |
| Middleware.PublicPrefixes | src/microfastapitodowebapp/main.py:31-32 | with the installed patterns, `/`, `/favicon.ico`, every path beginning `/login` and every path beginning `/static/` are public |
| Middleware.NotPublic | src/microfastapitodowebapp/main.py:31-32 | any other path matches no installed pattern |
| Middleware.PublicPathExamples | src/microfastapitodowebapp/main.py:31-32 | `/login` and the callback route are public; `/static` and `/dashboard` are not |
| Middleware.LoginIsPublic | src/microfastapitodowebapp/main.py:32 | `/login` matches `/login**` |
| Middleware.CallbackIsPublic | src/microfastapitodowebapp/router/auth.py:9-18 | the callback route `/login/oauth2/code/keycloak` is public, so the guard never challenges its own return |
| Middleware.StaticIsNotPublic | src/microfastapitodowebapp/main.py:32 | `/static` without the slash is not public |
| Middleware.DashboardIsNotPublic | src/microfastapitodowebapp/main.py:32 | `/dashboard` is not public |
| Middleware.Url | src/microfastapitodowebapp/config/middleware.py:57 | definition of `str(request.url)`: origin and path, then `?` and the query when the query is non-empty |
| Middleware.RedirectTarget | src/microfastapitodowebapp/config/middleware.py:54-59 | definition, as written: the HTMX page header or the request URL, then `?query` again when the query is non-empty; `RedirectTargetRepeatsQuery` states the doubling |
| Middleware.RedirectTargetRepeatsQuery | src/microfastapitodowebapp/config/middleware.py:54-59 | as written, a plain request with a query stores `origin+path?q?q`: the query appears twice |
| Middleware.RedirectTargetExample | src/microfastapitodowebapp/config/middleware.py:57-59 | `http://app/todos?page=2` is stored as `http://app/todos?page=2?page=2` |
| Middleware.IntendedRedirectTarget | src/microfastapitodowebapp/config/middleware.py:54-57 | corrected target: the page header for an HTMX request from a page, otherwise the request URL once |
| Middleware.IntendedTargetKeepsQueryOnce | src/microfastapitodowebapp/config/middleware.py:54-59 | with the corrected target the query appears exactly once, and the result differs from the code as written |
| Middleware.ContainsAt | src/microfastapitodowebapp/config/middleware.py:71 | Python's `in` on strings holds iff the substring occurs at some position (both directions) |
| Middleware.HtmxRewrite | src/microfastapitodowebapp/config/middleware.py:66-78 | An HTMX request whose redirect status points at the identity host gets a 200 carrying Starlette's `content-length: 0` for its empty body, `HX-Redirect` = the location, and a non-empty `set-cookie` if one was present, nothing else. A missing `location` raises. Every other response passes through unchanged |
| Middleware.HtmxDispatch | src/microfastapitodowebapp/config/middleware.py:66-78 | building the new response header by header gives `HtmxRewrite` |
| Middleware.HtmxExample | src/microfastapitodowebapp/config/middleware.py:68-77 | a 302 to the identity host becomes a 200 with `HX-Redirect` for HTMX and is untouched without `HX-Request` |
| OAuth.FetchToken | src/microfastapitodowebapp/config/oauth.py:11-19 | exactly the four client fields of the stored token, unchanged. A missing or non-dict token is TypeError. A dict token lacking a field is KeyError naming the first missing one, in the order `access_token`, `token_type`, `refresh_token`, `expires_at` |
| OAuth.Refreshed | src/microfastapitodowebapp/config/oauth.py:22-28 | the new token replaces the session's token, plus the stored `userinfo` and `refresh_expires_at = now + expires_in`. Every other session entry is kept. A missing token is KeyError, a non-dict token TypeError, a missing `userinfo` or `expires_in` KeyError naming it, a non-numeric `expires_in` TypeError |
| OAuth.UpdateToken | src/microfastapitodowebapp/config/oauth.py:22-28 | the session becomes `Refreshed`. On an error the session is unchanged and the error is returned |
| OAuth.RefreshAdmitsUntilExpiresIn | src/microfastapitodowebapp/config/oauth.py:27 | as written, after a refresh the guard admits exactly while `now < t + expires_in` |
| OAuth.IntendedRefreshed | src/microfastapitodowebapp/config/oauth.py:22-28 | corrected refresh: `refresh_expires_at = now + refresh_expires_in`, `userinfo` kept, session keys unchanged |
| OAuth.IntendedRefreshAdmitsUntilRefreshExpiry | src/microfastapitodowebapp/router/auth.py:21 | with the corrected refresh the guard admits exactly while `now < t + refresh_expires_in`, the window the callback opens |
| OAuth.RefreshExpiresEarlyExample | src/microfastapitodowebapp/config/oauth.py:27 | with `expires_in` 300 and `refresh_expires_in` 1800, refreshed at 1000 and checked at 1400: the code as written challenges, the corrected refresh admits |
| Auth.Stamped | src/microfastapitodowebapp/router/auth.py:21 | the token plus `refresh_expires_at = now + refresh_expires_in`, all else kept. Fails iff the lifetime is missing or not a number |
| Auth.CallbackStep | src/microfastapitodowebapp/router/auth.py:18-25 | A failed exchange or stamp leaves the application's own session entries as they were (authlib's state entry is left out). Otherwise the token is stored and `redirect_url` removed, other entries kept, and the outcome is the stored target. KeyError if there is none, in which case the token is still stored |
| Auth.Login | src/microfastapitodowebapp/router/auth.py:11-15 | sets `redirect_url` to `/`, changes no other entry of the application's own (authlib's state entry is left out), redirects to the callback route |
| Auth.AuthCallback | src/microfastapitodowebapp/router/auth.py:18-25 | the new session and the outcome are those of `CallbackStep` |
| Auth.CallbackAdmitsUntilRefreshExpiry | src/microfastapitodowebapp/router/auth.py:21-22 | after a callback at `t` the guard admits a non-public request with a cookie exactly while `now < t + refresh_expires_in` |
| Auth.ChallengeThenCallbackResumes | src/microfastapitodowebapp/router/auth.py:23-25 | a guard challenge followed by a successful callback returns to the stored target and leaves no target behind |
| Auth.LoginThenCallbackGoesHome | src/microfastapitodowebapp/router/auth.py:14-25 | `login` followed by a successful callback lands on `/` |
| Query.Serialized | src/microfastapitodowebapp/domain/query.py:12-22 | the serialisation meets `Serializes`: each field appears under its camelCase key exactly when truthy, with its value, and nothing else appears |
| Query.ToDict | src/microfastapitodowebapp/domain/query.py:12-22 | the four conditional insertions produce a map meeting `Serializes` |
| Query.SerializationUnique | src/microfastapitodowebapp/domain/query.py:12-22 | at most one map serialises a query, so `ToDict` equals `Serialized` |
| Query.DefaultSerializesEmpty | src/microfastapitodowebapp/domain/query.py:7-10 | a default query serialises to the empty map, and only to it |
| Query.OnlyPageSizeExample | src/microfastapitodowebapp/domain/query.py:14-21 | falsy fields (empty string, 0) are dropped: `("", None, 0, 20)` gives exactly `{pageSize: 20}` |
| Query.ModeValue | src/microfastapitodowebapp/domain/query.py:24-27 | the value sent for a mode is one of the three member names |
| Query.ModeValueInjective | src/microfastapitodowebapp/domain/query.py:24-27 | distinct modes are sent as distinct values |
| UrlHelper.IsNotBlank | src/microfastapitodowebapp/util/url_helper.py:22-23 | true iff some character is not whitespace |
| UrlHelper.BuildSearchQuery | src/microfastapitodowebapp/util/url_helper.py:17-20 | a filter exactly for a non-blank term, the three-clause filter text; None for a blank one |
| UrlHelper.FilterStartsWithTerm | src/microfastapitodowebapp/util/url_helper.py:19 | the filter is three copies of the term plus the fixed text, with the term right after the title clause |
| UrlHelper.FilterInjective | src/microfastapitodowebapp/util/url_helper.py:19 | different terms give different filters |
| UrlHelper.SearchParam | src/microfastapitodowebapp/util/url_helper.py:9-10 | the search is replaced by its filter if non-blank, by None otherwise |
| UrlHelper.SearchParamExample | src/microfastapitodowebapp/util/url_helper.py:9-10 | `milk` becomes its filter; a blank search becomes None, which `BuildUrl` then refuses |
| UrlHelper.BuildQuery | src/microfastapitodowebapp/util/url_helper.py:7-13 | The keys are the serialised query plus `mode` plus the extras. Extras win. `mode` holds the mode value and `search` the rewritten search unless overridden. Every other serialised parameter is kept |
| UrlHelper.SerializedHasValues | src/microfastapitodowebapp/domain/query.py:12-22 | no serialised value is None |
| UrlHelper.BuildUrl | src/microfastapitodowebapp/util/url_helper.py:6-15 | TypeError exactly when the search is truthy but blank and no extra overrides it: `URL.build` refuses the None the rewrite put there. Otherwise the path is the base, every value is text or a number, the search is its filter, and the query is that of `BuildQuery` |
| UrlHelper.OverrideWith | src/microfastapitodowebapp/util/url_helper.py:11-13 | every extra entry is written as text over any parameter of that name, and every other parameter is kept |
| TodoModel.ParseIso | src/microfastapitodowebapp/model/todo.py:40-41 | `fromisoformat`: TypeError for a non-string, ValueError for an unreadable string, otherwise the parse |
| TodoModel.ParseDeadline | src/microfastapitodowebapp/model/todo.py:33 | a missing or falsy deadline is None, otherwise its parse or parse error |
| TodoModel.FromDict | src/microfastapitodowebapp/model/todo.py:27-42 | Succeeds iff the item is a dict and the deadline and both timestamps parse; a missing `createdAt` is TypeError. Each field is copied from its key (`categories` defaults to `[]`, absent keys are None). A non-dict is AttributeError |
| TodoModel.ToPayload | src/microfastapitodowebapp/model/todo.py:9-21 | the reference encoding of a todo has exactly the twelve keys `from_dict` reads |
| TodoModel.FromDictInvertsPayload | src/microfastapitodowebapp/model/todo.py:27-42 | decoding an encoded todo gives it back, whenever the datetime parser inverts a formatter that never writes `""` |
| TodoModel.PriorityText | src/microfastapitodowebapp/model/todo.py:23-25 | the label of a listed priority, `Unknown` for an unlisted or non-numeric one, TypeError for an unhashable one |
| ResponseModel.DecodeAll | src/microfastapitodowebapp/model/todo_response.py:15 | succeeds iff every item decodes, with the same length, in order. The error is that of the first failing item |
| ResponseModel.DecodeAllAppend | src/microfastapitodowebapp/model/todo_response.py:15 | decoding distributes over concatenation |
| ResponseModel.DecodeContent | src/microfastapitodowebapp/model/todo_response.py:15 | a list is decoded item by item. A string or dict decodes only when empty, else AttributeError. Any other value is TypeError |
| ResponseModel.DecodePage | src/microfastapitodowebapp/model/todo_response.py:16-22 | succeeds iff the page is a dict with the four keys, copying each; a page lacking a key is KeyError naming the first missing one, in the order `size`, `number`, `totalElements`, `totalPages`; a non-dict page is TypeError |
| ResponseModel.FromJson | src/microfastapitodowebapp/model/todo_response.py:14-23 | Succeeds iff content and page are present and decode, and the fields are theirs. The errors follow the source's evaluation order: content key, then content items, then page |
| FormHelper.NormalizeList | src/microfastapitodowebapp/util/todo_form_helper.py:18-19 | None becomes `[]`, a list is kept |
| FormHelper.NormalizeTime | src/microfastapitodowebapp/util/todo_form_helper.py:26-29 | blank ⇒ `00:00:00`; else the stripped time, with `:00` appended when it has five characters |
| FormHelper.NormalizeTimeIdempotent | src/microfastapitodowebapp/util/todo_form_helper.py:26-29 | normalising a normalised time changes nothing |
| FormHelper.ParseDeadline | src/microfastapitodowebapp/util/todo_form_helper.py:22-36 | None for a blank date whatever the time. Otherwise the parse of `date T time`, marked UTC, or None when it does not parse |
| FormHelper.BuildCreateRequest | src/microfastapitodowebapp/util/todo_form_helper.py:39-50 | every field is copied from the form; the deadline is `ParseDeadline`; categories are normalised |
| FormHelper.BuildPatchRequest | src/microfastapitodowebapp/util/todo_form_helper.py:53-74 | the deadline-less body is chosen iff the parsed deadline lies strictly in the past. Otherwise the parsed deadline (None included) is sent. The other fields are copied |
| FormHelper.PatchNeverSendsPastDeadline | src/microfastapitodowebapp/util/todo_form_helper.py:58-74 | a deadline that is sent is never before now |
| FormHelper.SelectToast | src/microfastapitodowebapp/util/todo_form_helper.py:183-195 | An error wins over a share failure, which wins over success. A non-empty custom message replaces the default text |
| ShareSync.ShareService.constructor | src/microfastapitodowebapp/service/share.py:11-27 | a service holding the given shares and an empty call log |
| ShareSync.ShareService.GetTodoShares | src/microfastapitodowebapp/service/share.py:11-15 | logs one GET, returns the shares when it succeeds, changes no share |
| ShareSync.ShareService.CreateTodoShare | src/microfastapitodowebapp/service/share.py:18-21 | logs one PUT; on success sets the level of the address |
| ShareSync.ShareService.DeleteTodoShare | src/microfastapitodowebapp/service/share.py:24-27 | logs one DELETE; on success removes the address |
| ShareSync.SkipFirst | src/microfastapitodowebapp/util/todo_form_helper.py:86-88 | `xs[1:]` when skipping (the empty list stays empty), else `xs` |
| ShareSync.Cleaned | src/microfastapitodowebapp/util/todo_form_helper.py:96 | one cleaned address per form address |
| ShareSync.CleanedAt | src/microfastapitodowebapp/util/todo_form_helper.py:96 | each cleaned address is its form address stripped |
| ShareSync.PairsUpTo | src/microfastapitodowebapp/util/todo_form_helper.py:95-98 | the zip's first `n` positions without blank addresses: at most `n` shares, none with an empty address |
| ShareSync.Upsert | src/microfastapitodowebapp/util/todo_form_helper.py:129-133 | definition: the map with each share written in order, a later share of an address over an earlier one; its properties are `UpsertKeys`, `UpsertKeepsOthers` and `UpsertLastWins` |
| ShareSync.UpsertKeys | src/microfastapitodowebapp/util/todo_form_helper.py:129-133 | filling a map from the shares adds exactly their addresses |
| ShareSync.UpsertKeepsOthers | src/microfastapitodowebapp/util/todo_form_helper.py:129-133 | an address no share mentions keeps its level |
| ShareSync.UpsertLastWins | src/microfastapitodowebapp/util/todo_form_helper.py:129-133 | a repeated address ends at the level of its last occurrence |
| ShareSync.BuildTargetMap | src/microfastapitodowebapp/util/todo_form_helper.py:129-133 | the loop's map is the form's shares written in form order |
| ShareSync.AllOkAppend | src/microfastapitodowebapp/util/todo_form_helper.py:93-110 | two call runs together succeeded iff each did |
| ShareSync.PutShares | src/microfastapitodowebapp/util/todo_form_helper.py:93-110 | One PUT per non-blank form share, in form order, each attempted whatever came before. The result is true iff all succeeded, and then the upstream holds the old shares overwritten by the form's |
| ShareSync.CreateSharesFromForm | src/microfastapitodowebapp/util/todo_form_helper.py:77-110 | the same for the form's lists after `normalize_list` and `skip_first`; no call and true when either list is then empty |
| ShareSync.Compared | src/microfastapitodowebapp/util/todo_form_helper.py:135-138 | definition: the fetched shares without those at access level 3 |
| ShareSync.Deletes | src/microfastapitodowebapp/util/todo_form_helper.py:144 | definition: compared addresses not in the target map |
| ShareSync.Adds | src/microfastapitodowebapp/util/todo_form_helper.py:143 | definition: target addresses not among the compared ones |
| ShareSync.Checks | src/microfastapitodowebapp/util/todo_form_helper.py:145 | definition: addresses both in the target map and among the compared ones |
| ShareSync.PlanPartitions | src/microfastapitodowebapp/util/todo_form_helper.py:136-145 | the three sets are pairwise disjoint; adds and checks make up the target addresses, deletes and checks the compared ones; only checked addresses change level; an address is compared iff its level is not 3 |
| ShareSync.PlanReachesSynced | src/microfastapitodowebapp/util/todo_form_helper.py:140-174 | the deletes, then the adds, then the level changes, applied in that order, reach `SyncedShares` |
| ShareSync.SyncedSharesMeetsForm | src/microfastapitodowebapp/util/todo_form_helper.py:136-145 | Every form address ends at its form level and every dropped compared address is gone. A level-3 share the form does not mention is kept, and nothing else is present |
| ShareSync.SyncPlanExample | src/microfastapitodowebapp/util/todo_form_helper.py:136-174 | `{a:1,b:2,x:3}` against the form `{b:3,c:1}`: delete `a`, add `c`, change `b`, keep `x` |
| ShareSync.DeleteShares | src/microfastapitodowebapp/util/todo_form_helper.py:147-152 | one DELETE per address, each address once, in some order. True iff all succeeded, and then those addresses are gone. No other address is touched |
| ShareSync.AddShares | src/microfastapitodowebapp/util/todo_form_helper.py:154-161 | one PUT per address at its target level, each once. True iff all succeeded, and then those addresses hold their target levels. No other address is touched |
| ShareSync.CheckLevel | src/microfastapitodowebapp/util/todo_form_helper.py:164-174 | No call for an unchanged level. Otherwise a DELETE and, only when it succeeded, a PUT at the new level. True iff every call made succeeded. Other addresses are untouched |
| ShareSync.ChangeLevels | src/microfastapitodowebapp/util/todo_form_helper.py:163-174 | `CheckLevel` for each checked address once. True iff all calls succeeded, and then every differing address holds its new level. No address whose level is unchanged is touched |
| ShareSync.Reconcile | src/microfastapitodowebapp/util/todo_form_helper.py:140-174 | The three loops in order, their calls logged in that order. True iff every call succeeded, and then the upstream holds `SyncedShares`. An address outside the plan is untouched |
| ShareSync.SyncSharesFromForm | src/microfastapitodowebapp/util/todo_form_helper.py:113-180 | The target is the form's shares. The first call is the GET; if it fails the result is false and nothing else happens. Otherwise the plan's calls follow, the result is true iff every call succeeded, and then the upstream holds `SyncedShares`. An address outside the plan is untouched |

## Left out

- `RequestContextMiddleware`, the context variable and the OAuth client registration: not modelled; `update_token` takes the session directly.
- The authorization redirect itself (`authorize_redirect`, PKCE, `state`) and the code exchange of `authorize_access_token`: authlib internals. The model returns the callback URL; the exchange's outcome is a parameter.
- authlib's own session entry: `authorize_redirect`, called on the guard's challenge and by `login`, also stores a `_state_keycloak_<state>` entry, and `authorize_access_token` removes it before the exchange, so it is gone even when the exchange fails. The session contracts of `Dispatch`, `Login`, `CallbackStep` and `AuthCallback` describe only the application's own entries.
- Logging (`logger.trace`, `print`) and template rendering: no effect on the modelled state. `SelectToast` returns the type and message the template receives.
- Headers are single-valued and lower-case. A repeated header is not modelled. Starlette's `url_for` is the origin followed by the fixed callback path.
- `fnmatch` bracket classes (`[...]`): the installed patterns use only `*`.
- The float clock: time is whole seconds. This is exact for the guard, because `refresh_expires_at` is an int and `int(time.time())` floors.
- yarl's percent-encoding and the string form of the URL: `BuildUrl` returns the path and the query map before encoding. yarl's refusal of a None value is modelled (TypeError for a blank search), its other type checks are not.
- `todo_id` and the upstream URLs of the share calls: the service is the shares of one to-do. An upstream call that fails is assumed to change nothing.
- `TodoShareResponse` is not part of this model: the fetched shares are a map, so a response listing one address twice (where the dict comprehension keeps the last) is not modelled.
- The set iteration order of the reconciliation loops is not fixed: each loop's ghost order is some enumeration of its set.
- Type checks that dataclasses and pydantic do not perform: `Todo` fields keep whatever JSON value arrived. Pydantic validation of the request bodies is not modelled.
- `callback_name` of the guard is stored but, as in the source, unused.
- Query.ModeValue: states only that the value is one of the three names, leaving the per-member mapping to the body; `ModeValueInjective` adds that distinct modes differ.

## Findings

| source | as written | input that shows it | evidently intended | confidence | as-written member | corrected member |
|---|---|---|---|---|---|---|
| src/microfastapitodowebapp/config/middleware.py:57-59 | `str(request.url)` already ends with `?query`, and line 59 appends `?query` again | a plain GET of `http://app/todos?page=2` without a session stores `http://app/todos?page=2?page=2` | resume at the requested URL, query once; the corrected target keeps the origin because line 57 stores the full URL, so only the second append is removed | high (not executed) | Middleware.RedirectTargetExample | Middleware.IntendedTargetKeepsQueryOnce |
| src/microfastapitodowebapp/config/oauth.py:27 | the refreshed session's `refresh_expires_at` is `now + expires_in`, the access token's lifetime | `expires_in` 300, `refresh_expires_in` 1800, refresh at 1000: the guard challenges at 1400 | `now + refresh_expires_in`, as the login callback computes it | medium (not executed) | OAuth.RefreshExpiresEarlyExample | OAuth.IntendedRefreshAdmitsUntilRefreshExpiry |
