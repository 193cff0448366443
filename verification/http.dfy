/** What the SDK hands to `fetch` (or superagent) and what it reads back.
    Requests are values; sending them is left to the caller. A response body
    is represented by its text: the blob and buffer views of it carry the
    same content. */
module Http {
  import opened Wrappers
  import opened Js

  const ContentType: string := "Content-Type"
  const AuthorizationHeader: string := "Authorization"
  const ApiArg: string := "Dropbox-API-Arg"
  const SelectUserHeader: string := "Dropbox-API-Select-User"
  /** Response headers are read through `Headers.get`, which matches names
      case-insensitively; the model keys them by the lower-case name. */
  const ApiResult: string := "dropbox-api-result"

  const JsonType: string := "application/json"
  const OctetStream: string := "application/octet-stream"
  const FormUrlEncoded: string := "application/x-www-form-urlencoded"
  const Post: string := "POST"

  type Headers = map<string, string>

  datatype Body =
    | NoBody
      /** A string body, e.g. `JSON.stringify(args)`. */
    | TextBody(text: string)
      /** superagent's `.send(contents)`: whatever `args.contents` held,
          possibly `undefined`. */
    | Contents(contents: Option<Json>)

  datatype Request = Request(url: string, httpMethod: string, headers: Headers, body: Body)

  datatype Response = Response(status: int, ok: bool, headers: Headers, body: string)

  /** `'Bearer ' + token`, with an unset token printing as `undefined`. */
  function Bearer(token: OptString): string {
    "Bearer " + Show(token)
  }

  /** The `Dropbox-API-Select-User` header added only for a truthy user id. */
  function WithSelectUser(h: Headers, selectUser: OptString): Headers {
    if Truthy(selectUser) then h[SelectUserHeader := selectUser.value] else h
  }

  /** What `res.blob()` and `res.buffer()` resolve to; either holds the body. */
  datatype Payload = Blob(content: string) | Buffer(content: string)

  /** What a handler read from the response: its text, or its bytes. */
  datatype BodyRead = Text(text: string) | Bytes(payload: Payload)

  /** The value of a `fileBinary` field: a string, or the buffer itself. */
  datatype Binary = BinaryString(text: string) | BinaryBuffer(buffer: Payload)

  /** The one field a download adds to the parsed result header. */
  datatype FileField = FileBlob(blob: BodyRead) | FileBinary(binary: Binary)

  /** A download's result: the `dropbox-api-result` header's JSON with the
      file field added. */
  datatype DownloadResult = DownloadResult(metadata: Json, file: FileField)

  const SyntaxError: string := "SyntaxError"
  const TypeError: string := "TypeError"

  /** A value a property can be added to. */
  predicate IsObject(j: Json) {
    j.JObj? || j.JArr?
  }

  /** `JSON.parse(res.headers.get('dropbox-api-result'))`, ready to take a
      property: a missing header reads as `null` (so adding the file field
      throws a `TypeError`), an unparsable one throws a `SyntaxError`. */
  function ResultHeader(res: Response, parse: Parser): (r: Result<Json, string>)
    ensures r.Success? <==>
      ApiResult in res.headers && parse(res.headers[ApiResult]).Some? && IsObject(parse(res.headers[ApiResult]).value)
    ensures r.Success? ==> r.value == parse(res.headers[ApiResult]).value
    ensures ApiResult in res.headers && parse(res.headers[ApiResult]).None? ==> r == Failure(SyntaxError)
    ensures r.Failure? && r.error != SyntaxError ==> r.error == TypeError
  {
    if ApiResult !in res.headers then Failure(TypeError)
    else match parse(res.headers[ApiResult])
      case None => Failure(SyntaxError)
      case Some(j) => if IsObject(j) then Success(j) else Failure(TypeError)
  }
}
