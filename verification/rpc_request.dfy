/** `rpcRequest` (src/rpc-request.js): the request an RPC-style call sends,
    and what the promise settles to once the response is read. */
module RpcRequest {
  import opened Wrappers
  import opened Js
  import opened Http
  import Utils

  /** The auth kinds of src/constants.js. */
  const UserAuth: string := "user"
  const TeamAuth: string := "team"
  const NoAuth: string := "noauth"
  const AppAuth: string := "app"

  const ErrUnhandledAuth: string := "Unhandled auth type: "

  /** The headers for an auth kind the switch accepts. */
  function RpcHeaders(auth: OptString, accessToken: OptString, selectUser: OptString): Headers {
    var h := map[ContentType := JsonType];
    var h' := if auth == Some(UserAuth) || auth == Some(TeamAuth) then h[AuthorizationHeader := Bearer(accessToken)] else h;
    WithSelectUser(h', selectUser)
  }

  /** `rpcRequest(path, body, auth, host, accessToken, selectUser)` up to the
      `fetch`: the request sent, or the error thrown for an unknown auth kind. */
  function RpcRequest(path: string, body: Option<Json>, auth: OptString, host: string,
                      accessToken: OptString, selectUser: OptString, stringify: Stringifier): (r: Result<Request, string>)
    ensures r.Failure? <==> auth !in {Some(UserAuth), Some(TeamAuth), Some(NoAuth)}
    ensures r.Failure? ==> r.error == ErrUnhandledAuth + Show(auth)
    ensures r.Success? ==> r.value.url == Utils.GetBaseUrl(host) + path && r.value.httpMethod == Post
    ensures r.Success? ==> ContentType in r.value.headers && r.value.headers[ContentType] == JsonType
    ensures r.Success? ==>
      (AuthorizationHeader in r.value.headers <==> auth != Some(NoAuth))
    ensures r.Success? && auth != Some(NoAuth) ==> r.value.headers[AuthorizationHeader] == "Bearer " + Show(accessToken)
    ensures r.Success? ==>
      (SelectUserHeader in r.value.headers <==> Truthy(selectUser))
    ensures r.Success? && Truthy(selectUser) ==> r.value.headers[SelectUserHeader] == selectUser.value
    ensures r.Success? ==> r.value.headers.Keys <= {ContentType, AuthorizationHeader, SelectUserHeader}
    ensures r.Success? && JsonTruthy(body) ==> r.value.body == TextBody(stringify(body.value))
    ensures r.Success? && !JsonTruthy(body) ==> r.value.body == NoBody
  {
    if auth !in {Some(UserAuth), Some(TeamAuth), Some(NoAuth)} then Failure(ErrUnhandledAuth + Show(auth))
    else
      var payload := if JsonTruthy(body) then TextBody(stringify(body.value)) else NoBody;
      Success(Request(Utils.GetBaseUrl(host) + path, Post, RpcHeaders(auth, accessToken, selectUser), payload))
  }

  /** The body as the handler reads it: parsed JSON, or the raw text when it
      does not parse. */
  datatype Data = JsonData(json: Json) | TextData(text: string)

  /** What a non-ok response is rejected with. */
  datatype RpcError = RpcError(error: Data, response: Response, status: int)

  function ReadData(res: Response, parse: Parser): (d: Data)
    ensures parse(res.body).Some? ==> d == JsonData(parse(res.body).value)
    ensures parse(res.body).None? ==> d == TextData(res.body)
  {
    match parse(res.body)
    case Some(j) => JsonData(j)
    case None => TextData(res.body)
  }

  /** How the promise settles: the response itself when it is ok, otherwise a
      rejection carrying the body, the response and its status. */
  function RpcOutcome(res: Response, parse: Parser): (r: Result<Response, RpcError>)
    ensures r.Success? <==> res.ok
    ensures res.ok ==> r.value == res
    ensures !res.ok ==> r.error.response == res && r.error.status == res.status
    ensures !res.ok && parse(res.body).Some? ==> r.error.error == JsonData(parse(res.body).value)
    ensures !res.ok && parse(res.body).None? ==> r.error.error == TextData(res.body)
  {
    var data := ReadData(res, parse);
    if !res.ok then Failure(RpcError(data, res, res.status)) else Success(res)
  }

  /** The `Authorization` header is the only thing the auth kinds `user` and
      `team` change, and `noauth` differs from them only by leaving it out. */
  lemma AuthKindsDiffer(path: string, body: Option<Json>, host: string, accessToken: OptString,
                        selectUser: OptString, stringify: Stringifier)
    ensures var u := RpcRequest(path, body, Some(UserAuth), host, accessToken, selectUser, stringify);
      var t := RpcRequest(path, body, Some(TeamAuth), host, accessToken, selectUser, stringify);
      var n := RpcRequest(path, body, Some(NoAuth), host, accessToken, selectUser, stringify);
      && u == t
      && u.Success? && n.Success?
      && n.value.headers == u.value.headers - {AuthorizationHeader}
      && n.value.(headers := u.value.headers) == u.value
  {
    var u := RpcRequest(path, body, Some(UserAuth), host, accessToken, selectUser, stringify);
    var n := RpcRequest(path, body, Some(NoAuth), host, accessToken, selectUser, stringify);
    assert n.value.headers == u.value.headers - {AuthorizationHeader};
  }

  /** The app auth kind of src/constants.js is not among those this version of
      the requester handles. */
  lemma AppAuthUnhandled(path: string, body: Option<Json>, host: string, accessToken: OptString,
                         selectUser: OptString, stringify: Stringifier)
    ensures RpcRequest(path, body, Some(AppAuth), host, accessToken, selectUser, stringify)
         == Failure(ErrUnhandledAuth + AppAuth)
  {
  }
}
