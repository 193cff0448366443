/** `DropboxApi` (src/dropbox-api.js): the minimal browser client, an access
    token and the API base URI, with one route. */
module DropboxApi {
  import opened Wrappers
  import opened Js
  import Utils

  const BaseUri: string := "https://api.dropboxapi.com/2/"
  const ListFolderRoute: string := "files/list_folder"

  datatype Api = Api(accessToken: string, baseUri: string)

  /** A request handed to `genericPostRequest`. */
  datatype PostRequest = PostRequest(url: string, body: Json)

  /** `new DropboxApi()`: no token yet, and the base URI of the `api` host. */
  function NewApi(): (a: Api)
    ensures a.accessToken == ""
    ensures a.baseUri == Utils.GetBaseUrl("api")
  {
    assert Utils.GetBaseUrl("api") == BaseUri by {
      assert Utils.GetBaseUrl("api") == Utils.BaseUrlPrefix + "api" + Utils.BaseUrlSuffix;
    }
    Api("", BaseUri)
  }

  /** `setAccessToken(accessToken)`: the token changes, nothing else does. */
  function SetAccessToken(a: Api, accessToken: string): (r: Api)
    ensures r.accessToken == accessToken
    ensures r.(accessToken := a.accessToken) == a
  {
    a.(accessToken := accessToken)
  }

  /** `listFolder(path)`: a post to the route under the base URI whose body
      is an object with the path as its only member. */
  function ListFolder(a: Api, path: Json): (p: PostRequest)
    ensures a.baseUri <= p.url && p.url[|a.baseUri|..] == ListFolderRoute
    ensures p.body.JObj? && |p.body.fields| == 1 && Lookup(p.body.fields, "path") == Some(path)
  {
    PostRequest(a.baseUri + ListFolderRoute, JObj([Member("path", path)]))
  }

  /** A fresh client lists a folder at the `files/list_folder` route of the
      `api` host, whatever token was set since. */
  lemma ListFolderUrl(token: string, path: Json)
    ensures ListFolder(SetAccessToken(NewApi(), token), path).url == "https://api.dropboxapi.com/2/files/list_folder"
    ensures ListFolder(SetAccessToken(NewApi(), token), path).url == Utils.GetBaseUrl("api") + ListFolderRoute
  {
  }
}
