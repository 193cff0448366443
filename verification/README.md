# Dropbox JavaScript SDK runtime, modelled in Dafny

This project models the request and credential handling of the Dropbox
JavaScript SDK. It covers:

- the base URL and the header-safe JSON escaping of `src/utils.js`;
- the OAuth2 client `DropboxAuth` of `src/auth.js`:
  - its credential state;
  - the authorization URL, with the PKCE challenge;
  - the authorization-code and refresh-token grant requests;
  - the "is a refresh due" decision;
- the shared client state `DropboxBase`, its implicit-grant URL and its dispatch of calls by request style;
- the three requesters (RPC, upload, download): the request each sends, or the error each throws, and how each settles its promise from the response;
- `parseResponse` and `parseDownloadResponse` of `src/response.js`;
- `actAsUser` of the team client, and the minimal `DropboxApi` browser client.

Everything is a pure function over immutable values:

- A JavaScript value that may be `undefined` is an `Option`:
  - its truthiness is `Js.Truthy` (present and non-empty);
  - its interpolation into a string is `Js.Show` (`"undefined"` when absent).
- A thrown error is the `Failure` of a `Result`. It carries the message the source throws.
- A setter returns the updated record. A getter is the field itself.
- A request is a value: its URL, method, header map and body.
- A response is a value: its status, `ok` flag, headers and body text.

Each source file has a module:

| module | file |
|---|---|
| `Utils` | src/utils.js |
| `DropboxAuth` | src/auth.js |
| `DropboxBase` | src/dropbox-base.js |
| `RpcRequest` | src/rpc-request.js |
| `UploadRequest` | src/upload-request.js |
| `DownloadRequest` | src/download-request.js |
| `Responses` | src/response.js |
| `DropboxTeam` | src/team/dropbox-team.js |
| `DropboxApi` | src/dropbox-api.js |

Four shared modules sit beside them:

- `Wrappers` holds `Option` and `Result`.
- `Js` holds JavaScript truthiness, a JSON value type, property lookup and `delete`.
- `Http` holds the header names, the request and response records, and the download result.
- `Query` is the query-string view of the URLs that `src/auth.js` and `src/dropbox-base.js` build with `+=`:
  - the source's concatenation steps (`Start`, `AddParam`, `AddParamIf`, `Apply`) are modelled as written;
  - lemmas show that they equal rendering an ordered list of `name=value` parameters;
  - lemmas also show that this list can be read back from the URL.

Some inputs are not computed here. Each is a parameter of the operations that use it:

- `JSON.stringify` and `JSON.parse`;
- `OAuth2AuthorizationUrl` and `OAuth2TokenUrl`;
- the current time, in integer milliseconds;
- `isWindowOrWorker()`;
- for PKCE, the browser-safe random string and the challenge digest.

`OAuth2AuthorizationUrl`, `OAuth2TokenUrl`, `getTokenExpiresAtDate` and `isWindowOrWorker` are imported from a version of src/utils.js other than the one modelled here.

The request-style constants come from `src/request-constants`, which is not part of this model. Their values (`rpc`, `download`, `upload`) are taken from src/constants.js.

`DropboxBase.request` passes `(path, args, accessToken, selectUser)` to the requester. The requesters in src/ take `(path, args, auth, host, accessToken, selectUser)`. The two signatures come from different versions of the SDK. So the model records a dispatched call as the `DropboxBase.Call` value with the four values passed, in order. It does not feed them into the requester functions.

## Model

| member | source | states |
|---|---|---|
| `Utils.GetBaseUrl` | src/utils.js:1-3 | the URL is `https://`, then the host, then `.dropboxapi.com/2/`, and is 26 characters longer than the host |
| `Utils.GetBaseUrlInjective` | src/utils.js:1-3 | different hosts give different base URLs, so the host can be read back from the URL |
| `Utils.HttpHeaderSafeJson` | src/utils.js:6-10 | every character of the header value is below 0x7f; its length is the number of UTF-16 code units of the JSON text plus 5 for each code unit at or above 0x7f |
| `Utils.HeaderSafe` | src/utils.js:7-8 | the `replace` pass over UTF-16 code units: every output unit is below 0x7f, and the output is 5 units longer per replaced unit |
| `Utils.HeaderSafeAt` | src/utils.js:7-9 | the output is the replacement of each input code unit, laid end to end in input order; a unit below 0x7f is copied unchanged, any other becomes its escape |
| `Utils.EscapeIsFixedWidth` | src/utils.js:8 | prefixing `000` to the unit's `toString(16)` and keeping the last four characters gives exactly its four zero-padded lower-case hexadecimal digits |
| `Utils.Hex4Decodes` | src/utils.js:8 | the four digits of an escape read back as the very code unit they replace, so the escape loses nothing |
| `Utils.HeaderSafeOfNarrow` | src/utils.js:7 | text with no code unit at or above 0x7f passes through unchanged |
| `Utils.HeaderSafeIdempotent` | src/utils.js:7 | escaping an already escaped sequence of code units changes nothing |
| `Utils.HttpHeaderSafeJsonIdempotent` | src/utils.js:6-10 | applying the header-safe conversion to its own output changes nothing |
| `Utils.HttpHeaderSafeJsonExample` | test/upload-request.js:79-84 | the text `{"foo":"bar单bazá"}` becomes `{"foo":"bar\u5355baz\u00e1"}` |
| `Query.ApplyIsRendered` | src/auth.js:259-273 | appending `&name=value` for each step whose condition holds, in order, equals rendering the parameter list extended by those steps |
| `Query.GetTaken` | src/auth.js:259-273 | when step names are distinct and new, each optional parameter is in the rendered list exactly when its condition holds, and then with its value |
| `Query.ApplyKeepsPrefix` | src/auth.js:259-273 | appending optional parameters never changes what was already built |
| `Query.UrlRoundTrip` | src/auth.js:252-273 | a URL built from a base without `?` and parameters whose names and values contain no `&` (and names no `=`) splits back into exactly that parameter list |
| `DropboxAuth.NewAuth` | src/auth.js:58-70 | each credential is copied from the options, or absent when the options are missing; there is no PKCE verifier or challenge yet |
| `DropboxAuth.SetAccessToken` | src/auth.js:77-79 | the access token reads back as the value set, and no other field changes |
| `DropboxAuth.SetClientId` | src/auth.js:94-96 | the client id reads back as the value set, and no other field changes |
| `DropboxAuth.SetClientSecret` | src/auth.js:111-113 | the client secret reads back as the value set, and no other field changes |
| `DropboxAuth.SetRefreshToken` | src/auth.js:135-137 | the refresh token reads back as the value set, and no other field changes |
| `DropboxAuth.SetAccessTokenExpiresAt` | src/auth.js:151-153 | the expiry reads back as the value set, and no other field changes |
| `DropboxAuth.SetCodeVerifier` | src/auth.js:159-161 | the code verifier reads back as the value set, and no other field changes |
| `DropboxAuth.CodeVerifier` | src/auth.js:189-200 | the verifier is a prefix of the random browser-safe string, at most 128 characters long, and exactly 128 when the string is that long |
| `DropboxAuth.GetAuthenticationUrl` | src/auth.js:229-283 | the six checks fail in source order with their messages; the call succeeds exactly when all pass; the URL starts with the response type and client id; without PKCE the client is unchanged, with PKCE it stores the verifier and its challenge |
| `DropboxAuth.PrefixOfAuthorizationUrl` | src/auth.js:252-257 | the URL begins `base?response_type=<authType>&client_id=<clientId>` |
| `DropboxAuth.AuthorizationUrlParams` | src/auth.js:252-282 | the URL is the endpoint followed by the ordered parameter list; for an endpoint without `?` and parameters free of `&` and `=`, that list reads back from the URL |
| `DropboxAuth.AuthorizationParamsContents` | src/auth.js:252-273 | the first two parameters are `response_type` and `client_id`; `redirect_uri`, `state`, `token_access_type`, `scope` (space-joined) and `include_granted_scopes` each appear exactly when set (the last only when not `none`), with their values |
| `DropboxAuth.CodeFlowNeedsNoRedirect` | src/auth.js:236-238 | with auth type `code`, an absent or empty redirect URI is accepted |
| `DropboxAuth.PkceAppendsChallenge` | src/auth.js:274-280 | with PKCE the URL is the URL without PKCE followed by `&code_challenge_method=S256&code_challenge=<challenge>` |
| `DropboxAuth.GetAccessTokenFromCode` | src/auth.js:292-324 | it fails without a client id, and then without both a secret and a verifier; otherwise it is a POST with the form-urlencoded content type and no body |
| `DropboxAuth.TokenFromCodeUrl` | src/auth.js:299-314 | the request URL is the token endpoint followed by the grant's ordered parameter list |
| `DropboxAuth.TokenFromCodeParamsContents` | src/auth.js:299-314 | the parameters start `grant_type=authorization_code`, `code`, `client_id`; then comes `client_secret` when a secret is set, else `code_verifier`; `redirect_uri` appears exactly when set |
| `DropboxAuth.RefreshAccessToken` | src/auth.js:348-375 | it fails without a client id, then for a scope that is not an array; otherwise it is a POST with the JSON content type |
| `DropboxAuth.RefreshUrl` | src/auth.js:360-369 | the URL is `…?grant_type=refresh_token&refresh_token=R&client_id=C`, then `client_secret` exactly when a secret is set and `scope` exactly when a scope is given |
| `DropboxAuth.ApplyRefresh` | src/auth.js:378-381 | a successful refresh stores the new token and its expiry, and changes nothing else |
| `DropboxAuth.CheckAndRefreshAccessToken` | src/auth.js:331-340 | a refresh is issued exactly when the token has no expiry, expires within 300 000 ms, or is missing, and both a refresh token and a client id are set; the request is the one `refreshAccessToken()` sends |
| `DropboxAuth.RefreshStaysDue` | src/auth.js:331-340 | once a refresh is due it stays due as time passes |
| `DropboxAuth.RefreshWindow` | src/auth.js:331-340 | with a token, an expiry and what a refresh needs, a refresh is due exactly from 300 000 ms before the expiry |
| `DropboxAuth.RefreshSettles` | src/auth.js:331-340 | after a refresh stores a token living past the buffer, no further refresh is due |
| `DropboxBase.NewBaseAsWritten` | src/dropbox-base.js:13-17 | with options, the three fields are copied; without options the constructor throws |
| `DropboxBase.NewBase` | src/dropbox-base.js:13-17 | the three fields are copied from the options, or are absent without options; no requester is installed |
| `DropboxBase.NoOptionsCounterexample` | src/dropbox-base.js:13-17 | `new DropboxBase()` throws, while the intended constructor gives a client with no credentials |
| `DropboxBase.NewClient` | src/dropbox-base.js:13-17 | a `DropboxBase`, `Dropbox` or `DropboxTeam` is constructed with the state of the corrected constructor `DropboxBase.NewBase` and differs from it only in its class; it is an instance of `Dropbox` exactly when its class is not `DropboxBase` |
| `DropboxBase.SetAccessToken` | src/dropbox-base.js:19-25 | the token reads back as the value set, and no other field changes |
| `DropboxBase.SetClientId` | src/dropbox-base.js:27-33 | the client id reads back as the value set, and no other field changes |
| `DropboxBase.StyleOf` | src/dropbox-base.js:56-65 | each of `rpc`, `download` and `upload` names its own style, and nothing else names one |
| `DropboxBase.SetRequester` | src/dropbox-base.js:67-93 | the style's requester slot holds the value set; other slots and the credentials are unchanged |
| `DropboxBase.RequesterDefaults` | src/dropbox-base.js:67-101 | a fresh client uses the library requester of each style; after a setter, that style uses the value set and the others keep their defaults; a second get returns the same |
| `DropboxBase.GetRequester` | src/dropbox-base.js:71-101 | the requester returned is stored in the style's slot afterwards; an installed one is returned with the client unchanged, an empty slot yields the library requester; other slots and the credentials are unchanged |
| `DropboxBase.ClearedSlotFallsBack` | src/dropbox-base.js:71-77 | clearing a slot makes the next get fall back to the library requester |
| `DropboxBase.Request` | src/dropbox-base.js:56-65 | an unknown style fails with `Invalid request type`; a known one calls the style's requester with the path, the arguments, the token and the selected user |
| `DropboxBase.DispatchReachesLibrary` | src/dropbox-base.js:56-65 | on a fresh client each style reaches its own library requester, and the host argument plays no part |
| `DropboxBase.GetAuthenticationUrl` | src/dropbox-base.js:35-54 | it fails for a missing client id first and a missing redirect URI second; otherwise the URL is the authorize URL with `response_type=token`, `client_id`, `redirect_uri`, and `state` exactly when it is non-empty |
| `DropboxBase.BaseAuthUrlIsRendered` | src/dropbox-base.js:46-53 | the concatenated URL is the authorize URL followed by its ordered parameter list |
| `DropboxBase.AgreesWithDropboxAuth` | src/dropbox-base.js:35-54 | the same result, URL or error, as `DropboxAuth`'s `getAuthenticationUrl(redirectUri, state)` with the same credentials and the authorize endpoint |
| `RpcRequest.RpcRequest` | src/rpc-request.js:21-47 | it fails exactly for an auth kind other than `user`, `team` and `noauth`, naming it; the content type is always JSON; Authorization is present exactly when the auth kind is not `noauth`, as `Bearer <token>`; the select-user header is present exactly when set; no other header is sent; it is a POST to the base URL plus the path; the body is the JSON text of the arguments when they are truthy, and none otherwise |
| `RpcRequest.ReadData` | src/rpc-request.js:48-58 | the body reads as its JSON when it parses, and as its text otherwise |
| `RpcRequest.RpcOutcome` | src/rpc-request.js:48-71 | the promise resolves exactly when the response is ok, to the response itself; otherwise it rejects with the parsed body or text, the response and its status |
| `RpcRequest.AuthKindsDiffer` | src/rpc-request.js:25-34 | `user` and `team` give the same request, and `noauth` differs from it only by lacking the Authorization header |
| `RpcRequest.AppAuthUnhandled` | src/rpc-request.js:25-34 | the `app` auth kind is rejected as unhandled |
| `Js.Remove` | src/upload-request.js:23-24 | after `delete`, the key is absent, every other key looks up as before, and nothing is added; the remaining members keep their order, as `Js.RemoveAppend` and `Js.RemoveOne` state |
| `Js.RemoveAppend` | src/upload-request.js:23-24 | `delete` on an object made of two runs of members removes from each run and keeps the runs in order |
| `Js.RemoveOne` | src/upload-request.js:23-24 | a single member is dropped exactly when it has the deleted key, and kept otherwise |
| `UploadRequest.UploadRequest` | src/upload-request.js:13-61 | it fails exactly for an auth kind other than `user`, naming it; the body is the `contents` argument; the arguments afterwards are those given with `contents` deleted (`Js.Remove`): they lack `contents` and otherwise look up as before; the headers are the octet-stream content type, `Bearer <token>`, the header-safe JSON of the remaining arguments (all below 0x7f), and the select-user header exactly when set; it is a POST to the base URL plus the path |
| `UploadRequest.ArgsKeepOrder` | src/upload-request.js:23-49 | with `contents` anywhere among the other arguments, the header is the header-safe JSON of the other arguments in the order the caller gave them |
| `UploadRequest.ContentsOnlyInBody` | src/upload-request.js:21-56 | two argument objects that differ only in `contents` give the same header and the same request apart from the body |
| `UploadRequest.EscapedArgHeader` | test/upload-request.js:79-84 | the argument `{foo: 'bar单bazá'}` travels in the header as `{"foo":"bar\u5355baz\u00e1"}` |
| `UploadRequest.BuildCustomError` | src/upload-request.js:5-11 | the status is the error's; the message is the response text when there is a response with non-empty text, and the error's string form otherwise; the response is kept |
| `UploadRequest.UploadOutcome` | src/upload-request.js:38-44 | the promise rejects exactly when there is an error, with the error's status, the response, and the response text when it is non-empty or the error's string form otherwise; without an error it resolves to the response body |
| `UploadRequest.UploadErrorInformative` | src/upload-request.js:5-11 | the rejection message is the response text or the error's string form, and it is empty only when both are |
| `DownloadRequest.DownloadRequest` | src/download-request.js:32-49 | it fails exactly for an auth kind other than `user`, naming it; the headers are `Bearer <token>`, the header-safe JSON of the arguments, and the select-user header exactly when set, with no content type; it is a bodiless POST to the base URL plus the path |
| `DownloadRequest.DataFromConsumer` | src/download-request.js:3-9 | a failed response is read as text; an ok one as a blob in a window or worker and as a buffer elsewhere, holding the body |
| `DownloadRequest.ResponseHandler` | src/download-request.js:11-30 | a failed response rejects with the data, the response and its status; a missing or non-JSON result header is an error; otherwise the header's object carries the data as `fileBlob` or as the string `fileBinary` |
| `DownloadRequest.DownloadOutcome` | src/download-request.js:3-51 | a failed response rejects with its text, itself and its status; a missing result header throws a TypeError and an unparsable one a SyntaxError; otherwise it rejects exactly when `Http.ResultHeader` does (a missing header is a TypeError, an unparsable one a SyntaxError, one that parses to a non-object a TypeError), and the result is the header's object plus the body as a blob or as a string |
| `Http.ResultHeader` | src/download-request.js:21 | the result header yields a value exactly when it is present and parses to an object; an unparsable one is a SyntaxError, any other failure a TypeError |
| `Responses.ParseResponseAsWritten` | src/response.js:11-19 | status and headers are copied; the result is the parsed JSON, and undefined when the body is not JSON |
| `Responses.ParseResponse` | src/response.js:11-19 | status and headers are copied; the result is the parsed JSON, or the body's text when it is not JSON |
| `Responses.NonJsonBodyLost` | src/response.js:14-17 | a body that is not JSON is lost by the handler as written and kept by the corrected one |
| `Responses.ParseResponseCorrection` | src/response.js:11-19 | the two agree on JSON bodies, and the corrected result always gives back the body or its parse |
| `Responses.ParseDownloadResponse` | src/response.js:21-51 | status and headers are copied; a failed response's result is its text; an ok one's is the result header's JSON with the body as `fileBlob` or as the buffer `fileBinary`; an ok response rejects exactly when `Http.ResultHeader` does, that is when the result header is missing, unparsable or not an object |
| `Responses.RpcRejectionAgrees` | src/rpc-request.js:48-71 | an RPC rejection carries the body read as the corrected `parseResponse` reads it, with the same status; an ok response resolves to itself |
| `Responses.DownloadPathsAgree` | src/response.js:21-51 | on an ok response it fails, or not, with the download requester's handler; when both succeed they hold the same metadata and bytes, and only the form of `fileBinary` differs; on a failed response both carry the text and the status |
| `DropboxTeam.NewTeam` | src/team/dropbox-team.js:7-18 | a team client is an instance of `Dropbox` that also answers the team routes, with the state of the corrected constructor `DropboxBase.NewBase` |
| `DropboxTeam.ActAsUser` | src/team/dropbox-team.js:8-14 | the new client is a user-level `Dropbox` client without the team routes; it has the team's token and client id, selects the given user, and has no requester installed |
| `DropboxTeam.ActAsUserOfTeam` | src/team/dropbox-team.js:8-14 | acting as a user turns a team client into a plain `Dropbox` client that differs from it only in its class and the selected user |
| `DropboxTeam.ActingClientCalls` | src/team/dropbox-team.js:8-14 | every call of the derived client goes to the library requester with the team's token and the selected user |
| `DropboxApi.NewApi` | src/dropbox-api.js:5-8 | a new client has the empty token and the base URL of the `api` host |
| `DropboxApi.SetAccessToken` | src/dropbox-api.js:10-12 | the token reads back as the value set, and nothing else changes |
| `DropboxApi.ListFolder` | src/dropbox-api.js:14-17 | the request goes to the route `files/list_folder` under the base URI, with a body whose only member is the path |
| `DropboxApi.ListFolderUrl` | src/dropbox-api.js:14-17 | a fresh client lists folders at `https://api.dropboxapi.com/2/files/list_folder` |

## Left out

- Network I/O, `fetch`, superagent and promise timing: a request is described, not sent, and each handler takes the response as a value.
- The crypto of `generateCodeChallenge` and `generatePKCECodes` (SHA-256, random bytes, base64, `createBrowserSafeString`): the random string and the digest are parameters.
- `JSON.stringify` and `JSON.parse` are parameters. JSON numbers are integers.
- `getTokenExpiresAtDate` and `Date` objects: times and expiries are integer milliseconds.
- `this.fetch` in the `DropboxAuth` constructor: there is no I/O to inject.
- The getters of `DropboxAuth`, `DropboxBase` and `DropboxApi` are field reads of the record.
- `buildCustomError` of src/rpc-request.js:5-19 is defined but never called there, so it is not modelled.
- `DropboxResponse` of src/response.js:3-9 is the datatype `Responses.DropboxResponse`. Its constructor stores the status, headers and result as its fields.
- A `null` field or argument is modelled as `undefined` (`None`) only where the source tests it for truthiness or prints it. Where it is printed, JavaScript prints `null` and the model prints `undefined`: in `'Bearer ' + accessToken`, in `'Unexpected auth type: ' + auth` and `'Unhandled auth type: ' + auth`, and in the `code` and `refresh_token` parameters of src/auth.js:292-314 and 348-381. A default parameter replaces `undefined` but not `null`, so `null` is not modelled where a default applies: the `authType` and `includeGrantedScopes` of `getAuthenticationUrl` (src/auth.js:229) are plain strings here, and their defaults are `DropboxAuth.DefaultAuthUrlArgs`. Called with `null`, the source throws 'Authorization type must be code or token' or 'includeGrantedScopes must be none, user, or team'. Likewise the requester getters test `=== undefined` (src/dropbox-base.js:72,84,96), so a requester set to `null` is returned as `null`. `DropboxBase.SetRequester` with `None` models only setting `undefined`, which falls back to the library requester.
- Strings are sequences of Unicode scalar values. A lone UTF-16 surrogate cannot occur in the header escaping, while JavaScript strings allow it.
- `DropboxTeam.ActAsUser`: the user id is a number in the source and a string here. It only reaches the select-user header, where it is written as text. The exception is the user id `0`: the number is falsy, so the source sends no select-user header, while the string `"0"` is truthy and the model sends one.
- `DropboxBase.NewBase`: `options.selectUser` is a number in the source (src/dropbox-base.js:11-13) and an optional string here. The number `0` is falsy but the string `"0"` is truthy, so the model does not cover a select-user of `0`, which the source leaves out of the request headers.
- `DropboxBase.NewClient`: `Dropbox` and `DropboxTeam` declare no constructor and inherit the one at src/dropbox-base.js:13-17. As written, `new Dropbox()` and `new DropboxTeam()` throw a TypeError, as `DropboxBase.NewBaseAsWritten` shows. `NewClient` is built on the corrected `DropboxBase.NewBase` (see "## Findings"), so with no options it returns a client whose fields are all `undefined`.
- `DropboxTeam.NewTeam`: likewise built on the corrected constructor, so `NewTeam(None)` is a client where `new DropboxTeam()` throws as written.
- `DropboxBase.Request`: the `Call` value records what is passed to a requester, in source order. It does not run the requester, whose signature does not match that order.
- `refreshAccessToken` reads the new token from the parsed response. The model takes that token and the expiry as inputs (`DropboxAuth.ApplyRefresh`).
- `src/request-constants.js` is not part of this model. The style names are taken from src/constants.js.

## Findings

| source | as written | input that shows it | evidently intended | confidence | as-written member | corrected member |
|---|---|---|---|---|---|---|
| src/dropbox-base.js:13-17 | the constructor reads `options.accessToken` with no default for a missing `options` | `new DropboxBase()`, as test/dropbox-base.js:18-21 calls it, throws a TypeError (`DropboxBase.NoOptionsCounterexample`) | a missing `options` acts as `{}`, leaving every field undefined, as the tests expect and as src/auth.js:59 does | not executed | `DropboxBase.NewBaseAsWritten` | `DropboxBase.NewBase` |
| src/response.js:14-17 | the `.catch` handler calls `clone.text()` but returns nothing | a response whose body is the text `Internal Server Error` resolves with an undefined result (`Responses.NonJsonBodyLost`) | the result is the body's text when it is not JSON, as src/rpc-request.js:52-56 does | not executed | `Responses.ParseResponseAsWritten` | `Responses.ParseResponse` |
