/** `DropboxTeam` (src/team/dropbox-team.js): a team client is a `Dropbox`
    client whose prototype also carries the team routes; the one thing it
    adds is deriving a client that acts as one of the team's users. */
module DropboxTeam {
  import opened Wrappers
  import opened Js
  import DropboxBase

  /** `new DropboxTeam(options)`. */
  function NewTeam(options: Option<DropboxBase.Options>): (t: DropboxBase.Base)
    ensures DropboxBase.IsDropbox(t) && DropboxBase.HasTeamRoutes(t)
    ensures t.(cls := DropboxBase.BaseClass) == DropboxBase.NewBase(options)
  {
    DropboxBase.NewClient(DropboxBase.TeamClass, options)
  }

  /** `actAsUser(userId)`: a new user-level `Dropbox` client, without the
      team routes, with the team's token and app key, that selects the given
      user and has no requester installed. The team client is a value and is
      left as it was. */
  function ActAsUser(team: DropboxBase.Base, userId: string): (u: DropboxBase.Base)
    ensures DropboxBase.IsDropbox(u) && !DropboxBase.HasTeamRoutes(u)
    ensures u.accessToken == team.accessToken && u.clientId == team.clientId
    ensures u.selectUser == Some(userId)
    ensures u.rpcRequest.None? && u.downloadRequest.None? && u.uploadRequest.None?
  {
    DropboxBase.NewClient(DropboxBase.DropboxClass,
                          Some(DropboxBase.Options(team.accessToken, team.clientId, Some(userId))))
  }

  /** A team client built with some credentials acts as a user with the
      same credentials: the result is a plain `Dropbox` client that differs
      from the team client only in its class and the selected user. */
  lemma ActAsUserOfTeam(options: DropboxBase.Options, userId: string)
    ensures var team := NewTeam(Some(options));
            var u := ActAsUser(team, userId);
            && u.cls == DropboxBase.DropboxClass
            && u == team.(cls := DropboxBase.DropboxClass, selectUser := Some(userId))
  {
  }

  /** Every call the derived client makes, in any style, goes to the
      library requester with the team's token and the selected user, however
      the team client's own requesters were set. */
  lemma ActingClientCalls(team: DropboxBase.Base, userId: string, path: string, args: Json, host: string, style: string)
    requires DropboxBase.StyleOf(style).Some?
    ensures var r := DropboxBase.Request(ActAsUser(team, userId), path, args, host, style);
      && r.Success?
      && r.value.0 == DropboxBase.Call(DropboxBase.LibraryDefault(DropboxBase.StyleOf(style).value), path, args,
                                       team.accessToken, Some(userId))
  {
  }
}
