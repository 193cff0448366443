/** src/response.js: the `DropboxResponse` record and the two functions that
    turn a fetch response into one. */
module Responses {
  import opened Wrappers
  import opened Js
  import opened Http
  import RpcRequest
  import DownloadRequest

  /** `DropboxResponse`: the status and headers of the fetch response, and
      the result read from it. */
  datatype DropboxResponse<T> = DropboxResponse(status: int, headers: Headers, result: T)

  /** `parseResponse` as written: when the body is not JSON the `.catch`
      handler reads the text but returns nothing, so the result is
      `undefined` (`None`). */
  function ParseResponseAsWritten(res: Response, parse: Parser): (r: DropboxResponse<Option<Json>>)
    ensures r.status == res.status && r.headers == res.headers
    ensures r.result.Some? <==> parse(res.body).Some?
    ensures r.result.Some? ==> r.result == parse(res.body)
  {
    DropboxResponse(res.status, res.headers, parse(res.body))
  }

  /** `parseResponse` as evidently intended: the result is the parsed JSON,
      or the body's text when it is not JSON. */
  function ParseResponse(res: Response, parse: Parser): (r: DropboxResponse<RpcRequest.Data>)
    ensures r.status == res.status && r.headers == res.headers
    ensures parse(res.body).Some? ==> r.result == RpcRequest.JsonData(parse(res.body).value)
    ensures parse(res.body).None? ==> r.result == RpcRequest.TextData(res.body)
  {
    match parse(res.body)
    case Some(j) => DropboxResponse(res.status, res.headers, RpcRequest.JsonData(j))
    case None => DropboxResponse(res.status, res.headers, RpcRequest.TextData(res.body))
  }

  /** A body that is not JSON: the written handler loses it, the intended one
      keeps it. */
  lemma NonJsonBodyLost()
    ensures var res := Response(500, false, map[], "Internal Server Error");
            var parse: Parser := _ => None;
            && ParseResponseAsWritten(res, parse).result == None
            && ParseResponse(res, parse).result == RpcRequest.TextData("Internal Server Error")
  {
  }

  /** The two agree whenever the body is JSON, and the intended one never
      loses the body: from its result the body or its parse can be read back. */
  lemma ParseResponseCorrection(res: Response, parse: Parser)
    ensures parse(res.body).Some? ==>
      ParseResponseAsWritten(res, parse).result == Some(ParseResponse(res, parse).result.json)
    ensures ParseResponse(res, parse).result.TextData? ==> ParseResponse(res, parse).result.text == res.body
    ensures ParseResponse(res, parse).result.JsonData? ==> parse(res.body) == Some(ParseResponse(res, parse).result.json)
  {
  }

  /** An RPC call's rejection reads the body as the corrected
      `parseResponse` does, and carries the same status; an ok response
      resolves to the response itself. */
  lemma RpcRejectionAgrees(res: Response, parse: Parser)
    ensures var outcome := RpcRequest.RpcOutcome(res, parse);
      && (!res.ok ==> outcome.error.error == ParseResponse(res, parse).result
                      && outcome.error.status == ParseResponse(res, parse).status)
      && (res.ok ==> outcome == Success(res))
  {
  }

  /** The result of `parseDownloadResponse`: the error text of a failed
      response, or the file result. */
  datatype DownloadBody = ErrorText(text: string) | File(file: DownloadResult)

  /** `parseDownloadResponse(res)`: a failed response resolves to its text; a
      successful one to the result header's object carrying the body, as a
      blob in a window or worker and as the buffer itself elsewhere. The
      promise rejects exactly when the result header is missing, is not
      JSON, or parses to something other than an object. */
  function ParseDownloadResponse(res: Response, windowOrWorker: bool, parse: Parser): (r: Result<DropboxResponse<DownloadBody>, string>)
    ensures r.Success? ==> r.value.status == res.status && r.value.headers == res.headers
    ensures !res.ok ==> r == Success(DropboxResponse(res.status, res.headers, ErrorText(res.body)))
    ensures res.ok ==> (r.Success? <==> ResultHeader(res, parse).Success?)
    ensures res.ok && r.Failure? ==> r.error == ResultHeader(res, parse).error
    ensures res.ok && r.Success? ==> r.value.result == File(DownloadResult(parse(res.headers[ApiResult]).value,
      if windowOrWorker then FileBlob(Bytes(Blob(res.body))) else FileBinary(BinaryBuffer(Buffer(res.body)))))
  {
    if !res.ok then Success(DropboxResponse(res.status, res.headers, ErrorText(res.body)))
    else
      var metadata :- ResultHeader(res, parse);
      var file := if windowOrWorker then FileBlob(Bytes(Blob(res.body))) else FileBinary(BinaryBuffer(Buffer(res.body)));
      Success(DropboxResponse(res.status, res.headers, File(DownloadResult(metadata, file))))
  }

  /** `parseDownloadResponse` and the download requester's handler read a
      successful response alike: both fail, with the same error, or both give
      the same metadata and the same bytes; outside a window or worker the
      requester hands back the bytes as a string where this one hands back
      the buffer. A failed response is a rejection there and a result here,
      with the same text and status either way. */
  lemma DownloadPathsAgree(res: Response, windowOrWorker: bool, parse: Parser)
    ensures var mine := ParseDownloadResponse(res, windowOrWorker, parse);
            var theirs := DownloadRequest.DownloadOutcome(res, windowOrWorker, parse);
            && (res.ok ==> (mine.Success? <==> theirs.Success?))
            && (res.ok && mine.Failure? ==> theirs.error == DownloadRequest.Thrown(mine.error))
            && (res.ok && mine.Success? ==>
                  && mine.value.result.file.metadata == theirs.value.metadata
                  && (windowOrWorker ==> mine.value.result.file.file == theirs.value.file)
                  && (!windowOrWorker ==>
                        theirs.value.file.binary.text == mine.value.result.file.file.binary.buffer.content))
            && (!res.ok ==> theirs.Failure? && theirs.error.Rejected? && theirs.error.error == Text(mine.value.result.text)
                             && theirs.error.status == mine.value.status)
  {
  }
}
