/** `DropboxBase` (src/dropbox-base.js): the client state every Dropbox
    client shares, the implicit-grant authorization URL, and the dispatch of
    an API call to the requester for its style. Requesters are values: the
    three library implementations, or a function the user installed, known
    here only by an identity. Calling one is a `Call` record. */
module DropboxBase {
  import opened Wrappers
  import opened Js
  import opened Query
  import DropboxAuth

  /** The request styles of `src/request-constants`, whose values are those of
      src/constants.js. */
  const Rpc: string := "rpc"
  const Download: string := "download"
  const Upload: string := "upload"

  const AuthBaseUrl: string := "https://www.dropbox.com/oauth2/authorize"
  const ErrInvalidRequest: string := "Invalid request type"

  datatype Style = RpcStyle | DownloadStyle | UploadStyle

  /** The style a style name stands for, if any. */
  function StyleOf(name: string): (s: Option<Style>)
    ensures s == Some(RpcStyle) <==> name == Rpc
    ensures s == Some(DownloadStyle) <==> name == Download
    ensures s == Some(UploadStyle) <==> name == Upload
  {
    if name == Rpc then Some(RpcStyle)
    else if name == Download then Some(DownloadStyle)
    else if name == Upload then Some(UploadStyle)
    else None
  }

  datatype Requester =
    | LibraryRpc        // src/rpc-request.js
    | LibraryDownload   // src/download-request.js
    | LibraryUpload     // src/upload-request.js
    | Custom(id: nat)   // a function installed with a setter

  /** The requester `get*Request` falls back to. */
  function LibraryDefault(style: Style): Requester {
    match style
    case RpcStyle => LibraryRpc
    case DownloadStyle => LibraryDownload
    case UploadStyle => LibraryUpload
  }

  /** The constructor's options (the flow type's three fields). */
  datatype Options = Options(accessToken: OptString, clientId: OptString, selectUser: OptString)

  /** The class a client was constructed from: `DropboxBase` itself,
      `Dropbox` (which adds the user routes; src/dropbox.js is not part of
      this model), or `DropboxTeam`, a subclass of `Dropbox` whose prototype
      also carries the team routes. */
  datatype ClientClass = BaseClass | DropboxClass | TeamClass

  /** A client. A requester slot is `None` while it is `undefined`. */
  datatype Base = Base(
    accessToken: OptString,
    clientId: OptString,
    selectUser: OptString,
    rpcRequest: Option<Requester>,
    downloadRequest: Option<Requester>,
    uploadRequest: Option<Requester>,
    cls: ClientClass)

  /** `client instanceof Dropbox` */
  predicate IsDropbox(b: Base) {
    b.cls == DropboxClass || b.cls == TeamClass
  }

  /** The client answers the team routes. */
  predicate HasTeamRoutes(b: Base) {
    b.cls == TeamClass
  }

  /** `new DropboxBase(options)` as written: reading a field of a missing
      `options` throws a `TypeError`. */
  function NewBaseAsWritten(options: Option<Options>): (r: Result<Base, string>)
    ensures options.None? ==> r.Failure?
    ensures options.Some? ==> r == Success(NewBase(options))
  {
    match options
    case None => Failure("TypeError")
    case Some(_) => Success(NewBase(options))
  }

  /** `new DropboxBase(options)`, with a missing `options` read as `{}` as the
      tests expect of `new DropboxBase()`. */
  function NewBase(options: Option<Options>): (b: Base)
    ensures options.Some? ==>
      && b.accessToken == options.value.accessToken
      && b.clientId == options.value.clientId
      && b.selectUser == options.value.selectUser
    ensures options.None? ==> b.accessToken.None? && b.clientId.None? && b.selectUser.None?
    ensures b.rpcRequest.None? && b.downloadRequest.None? && b.uploadRequest.None?
    ensures b.cls == BaseClass
  {
    var o := options.GetOr(Options(None, None, None));
    Base(o.accessToken, o.clientId, o.selectUser, None, None, None, BaseClass)
  }

  /** `new C(options)` for `DropboxBase` or one of its subclasses, whose
      constructors all come down to this one: the same state, of class `C`. */
  function NewClient(cls: ClientClass, options: Option<Options>): (b: Base)
    ensures b.cls == cls
    ensures IsDropbox(b) <==> cls != BaseClass
    ensures b.(cls := BaseClass) == NewBase(options)
  {
    NewBase(options).(cls := cls)
  }

  /** `new DropboxBase()` throws as written, where the tests expect a client
      with every field `undefined`. */
  lemma NoOptionsCounterexample()
    ensures NewBaseAsWritten(None).Failure?
    ensures var b := NewBase(None); b.accessToken.None? && b.clientId.None? && b.selectUser.None?
  {
  }

  function SetAccessToken(b: Base, accessToken: OptString): (r: Base)
    ensures r.accessToken == accessToken
    ensures r.(accessToken := b.accessToken) == b
  {
    b.(accessToken := accessToken)
  }

  function SetClientId(b: Base, clientId: OptString): (r: Base)
    ensures r.clientId == clientId
    ensures r.(clientId := b.clientId) == b
  {
    b.(clientId := clientId)
  }

  // ---------------------------------------------------------------------
  // Requesters

  /** The slot of a style. */
  function Slot(b: Base, style: Style): Option<Requester> {
    match style
    case RpcStyle => b.rpcRequest
    case DownloadStyle => b.downloadRequest
    case UploadStyle => b.uploadRequest
  }

  /** `set{Rpc,Download,Upload}Request(r)`; setting `undefined` clears the slot. */
  function SetRequester(b: Base, style: Style, r: Option<Requester>): (b': Base)
    ensures Slot(b', style) == r
    ensures forall s :: s != style ==> Slot(b', s) == Slot(b, s)
    ensures b'.accessToken == b.accessToken && b'.clientId == b.clientId && b'.selectUser == b.selectUser
    ensures b'.cls == b.cls
  {
    match style
    case RpcStyle => b.(rpcRequest := r)
    case DownloadStyle => b.(downloadRequest := r)
    case UploadStyle => b.(uploadRequest := r)
  }

  /** `get{Rpc,Download,Upload}Request()`: the slot's requester, the library
      one stored first when the slot is empty. */
  function GetRequester(b: Base, style: Style): (r: (Requester, Base))
    ensures Slot(r.1, style) == Some(r.0)
    ensures Slot(b, style).Some? ==> r.0 == Slot(b, style).value && r.1 == b
    ensures Slot(b, style).None? ==> r.0 == LibraryDefault(style)
    ensures forall s :: s != style ==> Slot(r.1, s) == Slot(b, s)
    ensures r.1.(rpcRequest := b.rpcRequest, downloadRequest := b.downloadRequest, uploadRequest := b.uploadRequest) == b
  {
    match Slot(b, style)
    case Some(req) => (req, b)
    case None => (LibraryDefault(style), SetRequester(b, style, Some(LibraryDefault(style))))
  }

  /** A fresh client hands out the library requesters; after a setter, the
      installed one; and asking again gives the same answer. */
  lemma RequesterDefaults(options: Option<Options>, style: Style, other: Style, r: Requester)
    requires other != style
    ensures GetRequester(NewBase(options), style).0 == LibraryDefault(style)
    ensures GetRequester(SetRequester(NewBase(options), style, Some(r)), style).0 == r
    ensures GetRequester(SetRequester(NewBase(options), style, Some(r)), other).0 == LibraryDefault(other)
    ensures var (q, b) := GetRequester(NewBase(options), style); GetRequester(b, style) == (q, b)
  {
  }

  /** Clearing a slot brings the library requester back. */
  lemma ClearedSlotFallsBack(b: Base, style: Style)
    ensures GetRequester(SetRequester(b, style, None), style).0 == LibraryDefault(style)
  {
  }

  // ---------------------------------------------------------------------
  // Dispatch

  /** One call of a requester, with the values `request` passes it, in order. */
  datatype Call = Call(requester: Requester, path: string, args: Json, accessToken: OptString, selectUser: OptString)

  /** `request(path, args, host, style)`: the call made, with the client as it
      is afterwards (the requester slot may have been filled), or the error. */
  function Request(b: Base, path: string, args: Json, host: string, style: string): (r: Result<(Call, Base), string>)
    ensures StyleOf(style).None? <==> r == Failure(ErrInvalidRequest)
    ensures r.Success? ==> StyleOf(style).Some?
    ensures r.Success? ==>
      var (req, b') := GetRequester(b, StyleOf(style).value);
      r.value == (Call(req, path, args, b.accessToken, b.selectUser), b')
  {
    if style == Rpc then Dispatch(b, RpcStyle, path, args)
    else if style == Download then Dispatch(b, DownloadStyle, path, args)
    else if style == Upload then Dispatch(b, UploadStyle, path, args)
    else Failure(ErrInvalidRequest)
  }

  function Dispatch(b: Base, style: Style, path: string, args: Json): Result<(Call, Base), string> {
    var (req, b') := GetRequester(b, style);
    Success((Call(req, path, args, b.accessToken, b.selectUser), b'))
  }

  /** On a fresh client each style reaches its own library requester, and the
      host argument plays no part. */
  lemma DispatchReachesLibrary(options: Option<Options>, path: string, args: Json, host: string, host': string)
    ensures var b := NewBase(options);
      && Request(b, path, args, host, Rpc).value.0.requester == LibraryRpc
      && Request(b, path, args, host, Download).value.0.requester == LibraryDownload
      && Request(b, path, args, host, Upload).value.0.requester == LibraryUpload
      && Request(b, path, args, host, Rpc) == Request(b, path, args, host', Rpc)
  {
  }

  // ---------------------------------------------------------------------
  // The authorization URL

  /** `getAuthenticationUrl(redirectUri, state)`: the implicit-grant URL, or
      the error thrown. */
  function GetAuthenticationUrl(b: Base, redirectUri: OptString, state: OptString): (r: Result<string, string>)
    ensures !Truthy(b.clientId) ==> r == Failure(DropboxAuth.ErrClientId)
    ensures Truthy(b.clientId) && !Truthy(redirectUri) ==> r == Failure(DropboxAuth.ErrRedirectUri)
    ensures r.Success? <==> Truthy(b.clientId) && Truthy(redirectUri)
    ensures r.Success? ==>
      r.value == Url(AuthBaseUrl, [Param("response_type", "token"), Param("client_id", b.clientId.value),
                                   Param("redirect_uri", redirectUri.value)]
                                  + Optional(Truthy(state), "state", Show(state)))
  {
    if !Truthy(b.clientId) then Failure(DropboxAuth.ErrClientId)
    else if !Truthy(redirectUri) then Failure(DropboxAuth.ErrRedirectUri)
    else
      var u0 := AddParam(Start(AuthBaseUrl, "response_type", "token"), "client_id", b.clientId.value);
      var u := Apply(u0, BaseAuthSteps(redirectUri, state));
      BaseAuthUrlIsRendered(b.clientId.value, redirectUri, state);
      Success(u)
  }

  function BaseAuthSteps(redirectUri: OptString, state: OptString): seq<Step> {
    [Step(Truthy(redirectUri), "redirect_uri", Show(redirectUri)), Step(Truthy(state), "state", Show(state))]
  }

  lemma BaseAuthUrlIsRendered(clientId: string, redirectUri: OptString, state: OptString)
    requires Truthy(redirectUri)
    ensures Apply(AddParam(Start(AuthBaseUrl, "response_type", "token"), "client_id", clientId),
                  BaseAuthSteps(redirectUri, state))
         == Url(AuthBaseUrl, [Param("response_type", "token"), Param("client_id", clientId),
                              Param("redirect_uri", redirectUri.value)]
                             + Optional(Truthy(state), "state", Show(state)))
  {
    var rt := Param("response_type", "token");
    var id := Param("client_id", clientId);
    UrlStart(AuthBaseUrl, rt);
    AddParamIfExtends(true, AuthBaseUrl, [rt], id);
    assert [rt] + [id] == [rt, id];
    var steps := BaseAuthSteps(redirectUri, state);
    ApplyIsRendered(AuthBaseUrl, [rt, id], steps);
    assert Taken(steps[1..]) == Optional(Truthy(state), "state", Show(state)) + Taken(steps[2..]);
    assert [rt, id] + Taken(steps)
        == [rt, id, Param("redirect_uri", redirectUri.value)] + Optional(Truthy(state), "state", Show(state));
  }

  /** The credentials of a client, as `DropboxAuth` holds them. */
  function AuthOf(b: Base): (a: DropboxAuth.Auth)
    ensures a.accessToken == b.accessToken && a.clientId == b.clientId
  {
    DropboxAuth.NewAuth(Some(DropboxAuth.Options(b.accessToken, None, None, b.clientId, None, None, None)))
  }

  /** The older client's URL is exactly what `DropboxAuth` gives for the same
      credentials, the same two arguments and every other argument left to its
      default, errors included. */
  lemma AgreesWithDropboxAuth(b: Base, redirectUri: OptString, state: OptString,
                              random: string, digest: string -> string)
    ensures var r := DropboxAuth.GetAuthenticationUrl(AuthOf(b), _ => AuthBaseUrl,
                       DropboxAuth.DefaultAuthUrlArgs(redirectUri, state), random, digest);
      && (r.Success? <==> GetAuthenticationUrl(b, redirectUri, state).Success?)
      && (r.Success? ==> r.value.url == GetAuthenticationUrl(b, redirectUri, state).value)
      && (r.Failure? ==> r.error == GetAuthenticationUrl(b, redirectUri, state).error)
  {
    var a := AuthOf(b);
    var args := DropboxAuth.DefaultAuthUrlArgs(redirectUri, state);
    if DropboxAuth.ValidAuthUrlArgs(a, args) {
      var cid := b.clientId.value;
      var u0 := AddParam(Start(AuthBaseUrl, "response_type", "token"), "client_id", cid);
      var steps := DropboxAuth.AuthorizationSteps(args, "");
      assert steps == BaseAuthSteps(redirectUri, state) + steps[2..];
      ApplyAppend(u0, BaseAuthSteps(redirectUri, state), steps[2..]);
      SkippedSteps(Apply(u0, BaseAuthSteps(redirectUri, state)), steps[2..]);
    }
  }
}
