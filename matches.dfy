/**
 * The match document (match.model.ts) and the current match service
 * (match.service.ts): admission, joining, status updates with callback
 * notification, server provisioning and the server-status callback.
 */
module Matches {
  import opened Wrappers
  import opened Seqs
  import opened Entities
  import opened Clients
  import MatchAdmission

  /**
   * MATCH_ACTIVE_STATUS_CONDITION of the current service: only a match
   * waiting for its lobby or live counts toward the client's quota; once
   * its lobby is ready, while its server is created and after a failure it
   * no longer does.
   */
  predicate IsActive(s: MatchStatus)
    ensures IsActive(s) ==> s != MatchStatus.LobbyReady && s != MatchStatus.CreatingServer
                            && s != MatchStatus.Waiting && s != MatchStatus.Failed
  {
    s == MatchStatus.WaitingForLobby || s == MatchStatus.Live
  }

  /** The `preferences` object of a match; an absent createLighthouseServer flag is `false`. */
  datatype Preferences = Preferences(requiredPlayers: Option<int>, createLighthouseServer: bool)

  /** A match creation request; an empty callbackUrl stands for an absent one. */
  datatype MatchRequest = MatchRequest(game: string, region: string, callbackUrl: string,
                                       players: Option<seq<Player>>, requiredPlayers: Option<int>)

  /** A status notification POSTed to a match's callback URL (`<url>?status=<status>`). */
  datatype Notification = Notification(url: string, status: MatchStatus, matchId: string)

  /** The options of a server creation request sent to the fleet manager. */
  datatype ServerRequest = ServerRequest(game: string, region: string, provider: string)

  /** A stored match. Status, players and server change in place. */
  class Match {
    const id: string
    const createdAt: int
    const client: string
    const game: string
    const region: string
    const callbackUrl: string
    const requiredPlayers: Option<int>
    const preferences: Preferences
    var status: MatchStatus
    var players: seq<Player>
    var server: Option<string>

    constructor (id: string, createdAt: int, client: string, game: string, region: string, callbackUrl: string,
                 requiredPlayers: Option<int>, preferences: Preferences, status: MatchStatus, players: seq<Player>)
      ensures this.id == id && this.createdAt == createdAt && this.client == client
      ensures this.game == game && this.region == region && this.callbackUrl == callbackUrl
      ensures this.requiredPlayers == requiredPlayers && this.preferences == preferences
      ensures this.status == status && this.players == players && this.server == None
    {
      this.id := id;
      this.createdAt := createdAt;
      this.client := client;
      this.game := game;
      this.region := region;
      this.callbackUrl := callbackUrl;
      this.requiredPlayers := requiredPlayers;
      this.preferences := preferences;
      this.status := status;
      this.players := players;
      this.server := None;
    }
  }

  /** Number of matches of `clientId` whose status satisfies `active`. */
  function CountActive(ms: seq<Match>, clientId: string, active: MatchStatus -> bool): (n: nat)
    reads ms
    ensures n <= |ms|
    ensures n == 0 <==> forall i :: 0 <= i < |ms| ==> !(ms[i].client == clientId && active(ms[i].status))
  {
    if ms == [] then 0
    else
      var last := ms[|ms| - 1];
      CountActive(ms[..|ms| - 1], clientId, active) + (if last.client == clientId && active(last.status) then 1 else 0)
  }

  /** Appending a match raises a client's count by one exactly when the match is that client's and active. */
  lemma CountActiveAppend(ms: seq<Match>, m: Match, clientId: string, active: MatchStatus -> bool)
    ensures CountActive(ms + [m], clientId, active)
         == CountActive(ms, clientId, active) + (if m.client == clientId && active(m.status) then 1 else 0)
  {
    assert (ms + [m])[..|ms|] == ms;
  }

  /** Position of the match with the given id (the repository's findById). */
  function IndexOfId(ms: seq<Match>, id: string): (r: Option<nat>)
    ensures r.Some? ==> r.value < |ms| && ms[r.value].id == id
    ensures r.Some? ==> forall j :: 0 <= j < r.value ==> ms[j].id != id
    ensures r.None? <==> forall i :: 0 <= i < |ms| ==> ms[i].id != id
  {
    FindFirst(ms, (m: Match) => m.id == id)
  }

  /** Position of the first match whose server is `serverId` (the repository's findOne by server). */
  function IndexOfServer(ms: seq<Match>, serverId: string): (r: Option<nat>)
    reads ms
    ensures r.Some? ==> r.value < |ms| && ms[r.value].server == Some(serverId)
    ensures r.Some? ==> forall j :: 0 <= j < r.value ==> ms[j].server != Some(serverId)
    ensures r.None? <==> forall i :: 0 <= i < |ms| ==> ms[i].server != Some(serverId)
  {
    if ms == [] then None
    else if ms[0].server == Some(serverId) then Some(0)
    else
      var r := IndexOfServer(ms[1..], serverId);
      if r.None? then None else Some(r.value + 1)
  }

  /** getByIdForClient: the match with that id, refused as not found when it is missing or belongs to another client. */
  function GetByIdForClient(ms: seq<Match>, c: Client, id: string): (r: Result<Match, Error>)
    reads ms
    ensures r.Ok? <==> exists i :: 0 <= i < |ms| && ms[i].id == id && IndexOfId(ms, id) == Some(i) && ms[i].client == c.id
    ensures r.Ok? ==> r.value in ms && r.value.id == id && r.value.client == c.id
    ensures r.Err? ==> r.error == MatchNotFound
  {
    match IndexOfId(ms, id)
    case None => Err(MatchNotFound)
    case Some(i) => if c.id != ms[i].client then Err(MatchNotFound) else Ok(ms[i])
  }

  /**
   * The status a server-status callback moves a match to, if any: only a
   * match that is creating its server reacts; an idle or running server
   * makes it Waiting, a failed one Failed.
   */
  function ServerStatusEffect(current: MatchStatus, s: ServerStatus): (r: Option<MatchStatus>)
    ensures r.Some? ==> current == MatchStatus.CreatingServer
    ensures r == Some(MatchStatus.Waiting) <==> current == MatchStatus.CreatingServer && (s == ServerStatus.Idle || s == ServerStatus.Running)
    ensures r == Some(MatchStatus.Failed) <==> current == MatchStatus.CreatingServer && s == ServerStatus.Failed
    ensures r.Some? ==> r.value != current
  {
    if current != MatchStatus.CreatingServer then None
    else if s == ServerStatus.Idle || s == ServerStatus.Running then Some(MatchStatus.Waiting)
    else if s == ServerStatus.Failed then Some(MatchStatus.Failed)
    else None
  }

  /** The notification posted for a new status: one when the match has a callback URL, none otherwise. */
  function Notice(url: string, status: MatchStatus, matchId: string): seq<Notification> {
    if url != "" then [Notification(url, status, matchId)] else []
  }

  /** A server that reports it closed, or any status other than idle, running or failed, changes nothing. */
  lemma OtherServerStatusesIgnored(current: MatchStatus, s: ServerStatus)
    requires s != ServerStatus.Idle && s != ServerStatus.Running && s != ServerStatus.Failed
    ensures ServerStatusEffect(current, s) == None
  {
  }

  /**
   * The current match service. `matches` stands for the repository,
   * `outbox` for the notifications posted to callback URLs and
   * `serverRequests` for the creation requests sent to the fleet manager.
   */
  class MatchService {
    var matches: seq<Match>
    var outbox: seq<Notification>
    var serverRequests: seq<ServerRequest>

    constructor (matches: seq<Match>)
      ensures this.matches == matches && outbox == [] && serverRequests == []
    {
      this.matches := matches;
      outbox := [];
      serverRequests := [];
    }

    /**
     * createRequest: the admission checks against the client's active
     * matches; an admitted request stores a new match waiting for its
     * lobby, with the request's players (none when absent) and a
     * lighthouse-server preference.
     */
    method CreateRequest(c: Client, request: MatchRequest, id: string, now: int) returns (r: Result<Match, Error>)
      modifies this
      ensures outbox == old(outbox) && serverRequests == old(serverRequests)
      ensures var refusal := MatchAdmission.Admission(c, request.game, request.region, old(CountActive(matches, c.id, IsActive)));
        (r.Err? <==> refusal.Some?) && (r.Err? ==> r.error == refusal.value && matches == old(matches))
      ensures r.Ok? ==> fresh(r.value) && matches == old(matches) + [r.value]
      ensures r.Ok? ==> var m := r.value;
        m.id == id && m.createdAt == now && m.client == c.id && m.game == request.game && m.region == request.region
        && m.callbackUrl == request.callbackUrl && m.status == MatchStatus.WaitingForLobby
        && m.players == request.players.GetOr([]) && m.requiredPlayers == request.requiredPlayers
        && m.preferences == Preferences(None, true) && m.server == None
      ensures r.Ok? ==> CountActive(matches, c.id, IsActive) == old(CountActive(matches, c.id, IsActive)) + 1
    {
      var active := CountActive(matches, c.id, IsActive);
      var refusal := MatchAdmission.Admission(c, request.game, request.region, active);
      if refusal.Some? {
        return Err(refusal.value);
      }
      var m := new Match(id, now, c.id, request.game, request.region, request.callbackUrl, request.requiredPlayers,
                         Preferences(None, true), MatchStatus.WaitingForLobby, request.players.GetOr([]));
      matches := matches + [m];
      CountActiveAppend(old(matches), m, c.id, IsActive);
      r := Ok(m);
    }

    /** playerJoin: only a match waiting for its lobby takes players; the player is appended. */
    method PlayerJoin(id: string, player: Player) returns (r: Result<Match, Error>)
      modifies matches
      ensures IndexOfId(matches, id).None? ==> r == Err(MatchNotFound)
      ensures IndexOfId(matches, id).Some? ==> var m := matches[IndexOfId(matches, id).value];
        (old(m.status) != MatchStatus.WaitingForLobby ==> r == Err(CannotJoin) && m.players == old(m.players))
        && (old(m.status) == MatchStatus.WaitingForLobby ==> r == Ok(m) && m.players == old(m.players) + [player])
      ensures forall i :: 0 <= i < |matches| ==> matches[i].status == old(matches[i].status) && matches[i].server == old(matches[i].server)
      ensures IndexOfId(matches, id).None? ==> forall i :: 0 <= i < |matches| ==> matches[i].players == old(matches[i].players)
      ensures IndexOfId(matches, id).Some? ==> var m := matches[IndexOfId(matches, id).value];
        forall i :: 0 <= i < |matches| && matches[i] != m ==> matches[i].players == old(matches[i].players)
    {
      var k := IndexOfId(matches, id);
      if k.None? {
        return Err(MatchNotFound);
      }
      var m := matches[k.value];
      if m.status != MatchStatus.WaitingForLobby {
        return Err(CannotJoin);
      }
      m.players := m.players + [player];
      r := Ok(m);
    }

    /**
     * updateStatusAndNotify: nothing happens when the match already has the
     * status; otherwise the status is set and, when the match has a
     * callback URL, a notification is posted. A failed post changes
     * nothing.
     */
    method UpdateStatusAndNotify(m: Match, status: MatchStatus)
      modifies this, m
      ensures matches == old(matches) && serverRequests == old(serverRequests)
      ensures m.players == old(m.players) && m.server == old(m.server)
      ensures old(m.status) == status ==> m.status == status && outbox == old(outbox)
      ensures old(m.status) != status ==>
        m.status == status
        && outbox == old(outbox) + Notice(m.callbackUrl, status, m.id)
    {
      if m.status == status {
        return;
      }
      m.status := status;
      if m.callbackUrl != "" {
        outbox := outbox + [Notification(m.callbackUrl, status, m.id)];
      }
    }

    /**
     * createServerForMatch: the match first moves to CreatingServer. With no
     * provider in its region it fails and the call raises; otherwise a server
     * is requested from the first provider, and `created` is the id the
     * fleet manager returned (None when the request failed, which fails the
     * match but does not raise). Each status change posts its notification
     * when the match has a callback URL.
     */
    method CreateServerForMatch(m: Match, providers: seq<string>, created: Option<string>) returns (r: Result<(), Error>)
      modifies this, m
      ensures matches == old(matches) && m.players == old(m.players)
      ensures |providers| == 0 ==>
        r == Err(NoProvider) && m.status == MatchStatus.Failed
        && m.server == old(m.server) && serverRequests == old(serverRequests)
      ensures |providers| > 0 ==>
        r == Ok(())
        && serverRequests == old(serverRequests) + [ServerRequest(m.game, m.region, providers[0])]
      ensures |providers| > 0 && created.Some? ==> m.server == created && m.status == MatchStatus.CreatingServer
      ensures |providers| > 0 && created.None? ==> m.server == old(m.server) && m.status == MatchStatus.Failed
      ensures var creating := if old(m.status) != MatchStatus.CreatingServer then Notice(m.callbackUrl, MatchStatus.CreatingServer, m.id) else [];
        if |providers| > 0 && created.Some? then outbox == old(outbox) + creating
        else outbox == old(outbox) + creating + Notice(m.callbackUrl, MatchStatus.Failed, m.id)
    {
      UpdateStatusAndNotify(m, MatchStatus.CreatingServer);
      if |providers| == 0 {
        UpdateStatusAndNotify(m, MatchStatus.Failed);
        return Err(NoProvider);
      }
      serverRequests := serverRequests + [ServerRequest(m.game, m.region, providers[0])];
      if created.Some? {
        m.server := created;
      } else {
        UpdateStatusAndNotify(m, MatchStatus.Failed);
      }
      r := Ok(());
    }

    /**
     * handleServerStatusChange: the match using the server reacts as
     * `ServerStatusEffect` says, with a notification; no match using the
     * server raises NotFound.
     */
    method HandleServerStatusChange(serverId: string, s: ServerStatus) returns (r: Result<(), Error>)
      modifies this, matches
      ensures matches == old(matches) && serverRequests == old(serverRequests)
      ensures forall i :: 0 <= i < |matches| ==> matches[i].server == old(matches[i].server) && matches[i].players == old(matches[i].players)
      ensures old(IndexOfServer(matches, serverId)).None? <==> r == Err(MatchNotFound)
      ensures old(IndexOfServer(matches, serverId)).None? ==> outbox == old(outbox)
      ensures forall i :: 0 <= i < |matches| && old(IndexOfServer(matches, serverId)) == None ==> matches[i].status == old(matches[i].status)
      ensures old(IndexOfServer(matches, serverId)).Some? ==> var m := matches[old(IndexOfServer(matches, serverId)).value];
        (forall i :: 0 <= i < |matches| && matches[i] != m ==> matches[i].status == old(matches[i].status)) &&
        match ServerStatusEffect(old(m.status), s)
        case None => m.status == old(m.status) && outbox == old(outbox)
        case Some(next) =>
          m.status == next
          && outbox == old(outbox) + Notice(m.callbackUrl, next, m.id)
    {
      var k := IndexOfServer(matches, serverId);
      if k.None? {
        return Err(MatchNotFound);
      }
      var m := matches[k.value];
      if m.status == MatchStatus.CreatingServer {
        if s == ServerStatus.Idle || s == ServerStatus.Running {
          UpdateStatusAndNotify(m, MatchStatus.Waiting);
        } else if s == ServerStatus.Failed {
          UpdateStatusAndNotify(m, MatchStatus.Failed);
        }
      }
      r := Ok(());
    }
  }
}
