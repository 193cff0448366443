/** `downloadRequest` (src/download-request.js): the request a download-style
    call sends, and how the response is turned into the file result. */
module DownloadRequest {
  import opened Wrappers
  import opened Js
  import opened Http
  import Utils

  const UserAuth: string := "user"
  const ErrUnexpectedAuth: string := "Unexpected auth type: "

  /** `downloadRequest(path, args, auth, host, accessToken, selectUser)` up to
      the `fetch`: only user auth is accepted; the arguments travel in the
      `Dropbox-API-Arg` header, and there is no body and no content type. */
  function DownloadRequest(path: string, args: Json, auth: OptString, host: string,
                           accessToken: OptString, selectUser: OptString, stringify: Stringifier): (r: Result<Request, string>)
    ensures r.Failure? <==> auth != Some(UserAuth)
    ensures r.Failure? ==> r.error == ErrUnexpectedAuth + Show(auth)
    ensures r.Success? ==> r.value.url == Utils.GetBaseUrl(host) + path && r.value.httpMethod == Post
    ensures r.Success? ==> r.value.body == NoBody
    ensures r.Success? ==> r.value.headers.Keys <= {AuthorizationHeader, ApiArg, SelectUserHeader}
    ensures r.Success? ==> {AuthorizationHeader, ApiArg} <= r.value.headers.Keys
    ensures r.Success? ==> r.value.headers[AuthorizationHeader] == "Bearer " + Show(accessToken)
    ensures r.Success? ==> r.value.headers[ApiArg] == Utils.HttpHeaderSafeJson(stringify(args))
    ensures r.Success? ==> (SelectUserHeader in r.value.headers <==> Truthy(selectUser))
    ensures r.Success? && Truthy(selectUser) ==> r.value.headers[SelectUserHeader] == selectUser.value
  {
    if auth != Some(UserAuth) then Failure(ErrUnexpectedAuth + Show(auth))
    else
      var h := map[AuthorizationHeader := Bearer(accessToken),
                   ApiArg := Utils.HttpHeaderSafeJson(stringify(args))];
      Success(Request(Utils.GetBaseUrl(host) + path, Post, WithSelectUser(h, selectUser), NoBody))
  }

  /** `getDataFromConsumer(res)`: the text of a failed response, else the
      body as a blob in a window or worker and as a buffer elsewhere. */
  function DataFromConsumer(res: Response, windowOrWorker: bool): (d: BodyRead)
    ensures d.Text? <==> !res.ok
    ensures d.Text? ==> d.text == res.body
    ensures d.Bytes? ==> d.payload.content == res.body && (d.payload.Blob? <==> windowOrWorker)
  {
    if !res.ok then Text(res.body)
    else if windowOrWorker then Bytes(Blob(res.body)) else Bytes(Buffer(res.body))
  }

  /** `data.toString()`: a buffer decodes to its content; a string is itself. */
  function DataString(d: BodyRead): string {
    match d
    case Text(t) => t
    case Bytes(Buffer(c)) => c
    case Bytes(Blob(_)) => "[object Blob]"
  }

  /** What the promise is rejected with: the object thrown for a non-ok
      response, or the error `JSON.parse` or the property assignment throws. */
  datatype DownloadError = Rejected(error: BodyRead, response: Response, status: int) | Thrown(name: string)

  /** `responseHandler(res, data)`. */
  function ResponseHandler(res: Response, data: BodyRead, windowOrWorker: bool, parse: Parser): (r: Result<DownloadResult, DownloadError>)
    ensures !res.ok ==> r == Failure(Rejected(data, res, res.status))
    ensures res.ok && ResultHeader(res, parse).Failure? ==> r == Failure(Thrown(ResultHeader(res, parse).error))
    ensures res.ok && ResultHeader(res, parse).Success? ==>
      && r.Success?
      && r.value.metadata == ResultHeader(res, parse).value
      && (windowOrWorker ==> r.value.file == FileBlob(data))
      && (!windowOrWorker ==> r.value.file == FileBinary(BinaryString(DataString(data))))
  {
    if !res.ok then Failure(Rejected(data, res, res.status))
    else match ResultHeader(res, parse)
      case Failure(e) => Failure(Thrown(e))
      case Success(j) =>
        if windowOrWorker then Success(DownloadResult(j, FileBlob(data)))
        else Success(DownloadResult(j, FileBinary(BinaryString(DataString(data)))))
  }

  /** The two steps chained as `downloadRequest` chains them: a failed
      response is rejected with its text, itself and its status; a missing
      result header, or one that parses to a non-object, throws a
      `TypeError`, and one that is not JSON a `SyntaxError`; otherwise the result header's object carries the body, as a blob in a
      window or worker and as a string elsewhere. */
  function DownloadOutcome(res: Response, windowOrWorker: bool, parse: Parser): (r: Result<DownloadResult, DownloadError>)
    ensures !res.ok ==> r == Failure(Rejected(Text(res.body), res, res.status))
    ensures res.ok ==> (r.Success? <==> ResultHeader(res, parse).Success?)
    ensures res.ok && ApiResult !in res.headers ==> r == Failure(Thrown(TypeError))
    ensures res.ok && ApiResult in res.headers && parse(res.headers[ApiResult]).None? ==> r == Failure(Thrown(SyntaxError))
    ensures res.ok && r.Success? ==>
      && r.value.metadata == parse(res.headers[ApiResult]).value
      && r.value.file == if windowOrWorker then FileBlob(Bytes(Blob(res.body))) else FileBinary(BinaryString(res.body))
  {
    ResponseHandler(res, DataFromConsumer(res, windowOrWorker), windowOrWorker, parse)
  }
}
