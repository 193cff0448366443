/** `uploadRequest` (src/upload-request.js): the request an upload-style call
    sends through superagent, and how its callback settles the promise. */
module UploadRequest {
  import opened Wrappers
  import opened Js
  import opened Http
  import Utils

  const UserAuth: string := "user"
  const ErrUnexpectedAuth: string := "Unexpected auth type: "

  /** The field of the argument object that travels as the request body. */
  const ContentsKey: string := "contents"

  /** An upload once issued: the request, and the argument object as the
      caller sees it afterwards (the call deletes `contents` from it). */
  datatype Upload = Upload(request: Request, args: seq<Member>)

  /** `uploadRequest(path, args, auth, host, accessToken, selectUser)` up to
      `.end`: only user auth is accepted; `contents` is taken out of the
      arguments and sent as the body, and what is left goes in the
      `Dropbox-API-Arg` header in header-safe form. */
  function UploadRequest(path: string, args: seq<Member>, auth: OptString, host: string,
                         accessToken: OptString, selectUser: OptString, stringify: Stringifier): (r: Result<Upload, string>)
    ensures r.Failure? <==> auth != Some(UserAuth)
    ensures r.Failure? ==> r.error == ErrUnexpectedAuth + Show(auth)
    ensures r.Success? ==> r.value.request.url == Utils.GetBaseUrl(host) + path && r.value.request.httpMethod == Post
    ensures r.Success? ==> r.value.request.body == Contents(Lookup(args, ContentsKey))
    ensures r.Success? ==> r.value.args == Remove(args, ContentsKey)
    ensures r.Success? ==> Lookup(r.value.args, ContentsKey).None?
    ensures r.Success? ==> forall k :: k != ContentsKey ==> Lookup(r.value.args, k) == Lookup(args, k)
    ensures r.Success? ==> r.value.request.headers.Keys <= {ContentType, AuthorizationHeader, ApiArg, SelectUserHeader}
    ensures r.Success? ==> {ContentType, AuthorizationHeader, ApiArg} <= r.value.request.headers.Keys
    ensures r.Success? ==> r.value.request.headers[ContentType] == OctetStream
    ensures r.Success? ==> r.value.request.headers[AuthorizationHeader] == "Bearer " + Show(accessToken)
    ensures r.Success? ==> r.value.request.headers[ApiArg] == Utils.HttpHeaderSafeJson(stringify(JObj(r.value.args)))
    ensures r.Success? ==> forall i :: 0 <= i < |r.value.request.headers[ApiArg]| ==> (r.value.request.headers[ApiArg][i] as int) < 0x7f
    ensures r.Success? ==> (SelectUserHeader in r.value.request.headers <==> Truthy(selectUser))
    ensures r.Success? && Truthy(selectUser) ==> r.value.request.headers[SelectUserHeader] == selectUser.value
  {
    if auth != Some(UserAuth) then Failure(ErrUnexpectedAuth + Show(auth))
    else
      var rest := Remove(args, ContentsKey);
      var h := map[ContentType := OctetStream,
                   AuthorizationHeader := Bearer(accessToken),
                   ApiArg := Utils.HttpHeaderSafeJson(stringify(JObj(rest)))];
      Success(Upload(Request(Utils.GetBaseUrl(host) + path, Post, WithSelectUser(h, selectUser),
                             Contents(Lookup(args, ContentsKey))), rest))
  }

  /** A superagent error: its status, if it has one, and `toString()`. */
  datatype AgentError = AgentError(status: Option<int>, text: string)

  /** A superagent response: its text and its parsed body. */
  datatype AgentResponse = AgentResponse(text: OptString, body: Option<Json>)

  /** What a failed upload is rejected with. */
  datatype UploadError = UploadError(status: Option<int>, error: string, response: Option<AgentResponse>)

  /** `buildCustomError`: the error message is the response's text when there
      is a response with non-empty text, and the error's own string otherwise. */
  function BuildCustomError(error: AgentError, response: Option<AgentResponse>): (e: UploadError)
    ensures e.status == error.status && e.response == response
    ensures response.Some? && Truthy(response.value.text) ==> e.error == response.value.text.value
    ensures !(response.Some? && Truthy(response.value.text)) ==> e.error == error.text
  {
    var message := match response
      case Some(AgentResponse(Some(t), _)) => if t != "" then t else error.text
      case _ => error.text;
    UploadError(error.status, message, response)
  }

  /** The `.end` callback: a rejection built from the error, or the response's
      parsed body. Superagent passes a response whenever there is no error. */
  function UploadOutcome(error: Option<AgentError>, response: Option<AgentResponse>): (r: Result<Option<Json>, UploadError>)
    requires error.Some? || response.Some?
    ensures r.Failure? <==> error.Some?
    ensures r.Failure? ==> r.error.status == error.value.status && r.error.response == response
    ensures r.Failure? && response.Some? && Truthy(response.value.text) ==> r.error.error == response.value.text.value
    ensures r.Failure? && !(response.Some? && Truthy(response.value.text)) ==> r.error.error == error.value.text
    ensures r.Success? ==> r.value == response.value.body
  {
    if error.Some? then Failure(BuildCustomError(error.value, response))
    else Success(response.value.body)
  }

  /** The rejection never drops an informative message: it is one of the
      two texts available, and it is empty only when both are. */
  lemma UploadErrorInformative(error: AgentError, response: Option<AgentResponse>)
    ensures var m := BuildCustomError(error, response).error;
      && (m == error.text || (response.Some? && response.value.text == Some(m)))
      && (m == "" <==> error.text == "" && !(response.Some? && Truthy(response.value.text)))
  {
  }

  /** The contents never reach the argument header: two argument objects
      that differ only in their contents produce the same header, and the
      same request apart from the body. */
  lemma ContentsOnlyInBody(path: string, args: seq<Member>, contents: Json, auth: OptString, host: string,
                           accessToken: OptString, selectUser: OptString, stringify: Stringifier)
    requires auth == Some(UserAuth)
    ensures var with := UploadRequest(path, Remove(args, ContentsKey) + [Member(ContentsKey, contents)], auth,
                                      host, accessToken, selectUser, stringify);
            var without := UploadRequest(path, Remove(args, ContentsKey), auth, host, accessToken, selectUser, stringify);
            && with.Success? && without.Success?
            && with.value.request.body == Contents(Some(contents))
            && without.value.request.body == Contents(None)
            && with.value.request.(body := NoBody) == without.value.request.(body := NoBody)
            && with.value.args == without.value.args
  {
    var rest := Remove(args, ContentsKey);
    RemoveAppendAbsent(rest, Member(ContentsKey, contents));
    LookupAppendAbsent(rest, Member(ContentsKey, contents));
  }

  /** An upload with `contents` between other arguments: the header carries
      the other arguments in their original order, so `JSON.stringify` sees
      the object the caller built, less `contents`. */
  lemma ArgsKeepOrder(path: string, front: seq<Member>, contents: Json, back: seq<Member>, host: string,
                      accessToken: OptString, selectUser: OptString, stringify: Stringifier)
    requires Lookup(front, ContentsKey).None? && Lookup(back, ContentsKey).None?
    ensures var r := UploadRequest(path, front + [Member(ContentsKey, contents)] + back, Some(UserAuth),
                                   host, accessToken, selectUser, stringify);
      && r.Success?
      && r.value.args == front + back
      && r.value.request.headers[ApiArg] == Utils.HttpHeaderSafeJson(stringify(JObj(front + back)))
  {
    var m := Member(ContentsKey, contents);
    var args := front + [m] + back;
    assert Remove(args, ContentsKey) == front + back by {
      RemoveAppend(front + [m], back, ContentsKey);
      RemoveAppend(front, [m], ContentsKey);
      RemoveOne(m, ContentsKey);
    }
    var r := UploadRequest(path, args, Some(UserAuth), host, accessToken, selectUser, stringify);
    assert r.value.args == front + back;
  }

  /** Removing a key that is absent from the front part and present in the
      single appended member leaves exactly the front part. */
  lemma {:induction false} RemoveAppendAbsent(fields: seq<Member>, m: Member)
    requires Lookup(fields, m.key).None?
    ensures Remove(fields + [m], m.key) == fields
  {
    if fields == [] {
      assert fields + [m] == [m];
    } else {
      assert (fields + [m])[1..] == fields[1..] + [m];
      assert fields[0].key != m.key;
      RemoveAppendAbsent(fields[1..], m);
    }
  }

  /** Looking up the key of an appended member absent from the front part
      finds its value. */
  lemma {:induction false} LookupAppendAbsent(fields: seq<Member>, m: Member)
    requires Lookup(fields, m.key).None?
    ensures Lookup(fields + [m], m.key) == Some(m.value)
  {
    if fields == [] {
      assert fields + [m] == [m];
    } else {
      assert (fields + [m])[1..] == fields[1..] + [m];
      LookupAppendAbsent(fields[1..], m);
    }
  }

  /** The argument object of the header-escaping tests. */
  const ExampleArgs: seq<Member> := [Member("foo", JStr("bar" + "\U{5355}" + "baz" + "\U{e1}"))]

  /** The header-escaping case of the upload tests: an argument string with a
      CJK character and an accented letter reaches the header with both
      written as JSON `\u` escapes. */
  lemma EscapedArgHeader(path: string, host: string, accessToken: OptString, stringify: Stringifier)
    requires stringify(JObj(ExampleArgs)) == "{\"foo\":\"bar" + "\U{5355}" + "baz" + "\U{e1}" + "\"}"
    ensures var r := UploadRequest(path, ExampleArgs, Some(UserAuth), host, accessToken, None, stringify);
            r.Success? && r.value.request.headers[ApiArg] == "{\"foo\":\"bar" + "\\u5355" + "baz" + "\\u00e1" + "\"}"
  {
    Utils.HttpHeaderSafeJsonExample();
  }
}
