/**
 * The current lobby service (lobby.service.ts): creation with its two
 * admission scans, closing, the queue edits guarded by status, and the
 * supervisor step that expires, checks and processes waiting lobbies.
 */
module Lobbies {
  import opened Wrappers
  import opened Entities
  import opened Seqs
  import opened Clients
  import opened LobbyModel
  import opened LobbyRules
  import Matches
  import MatchAdmission
  import RandomDistribution
  import Distributor

  /**
   * A lobby creation request. Empty strings stand for an absent callback
   * URL; `expiryTime` is `data.expiryTime`.
   */
  datatype LobbyRequest = LobbyRequest(userId: string, distribution: DistributionType, requirements: seq<RoleRequirement>,
                                       queuedPlayers: Option<seq<Player>>, callbackUrl: string,
                                       matchOptions: Matches.MatchRequest, expiryTime: Option<int>)

  /** A call of `lobby.updateStatus`, which stores the status and notifies the lobby's consumer. */
  datatype StatusUpdate = StatusUpdate(lobbyId: string, status: LobbyStatus)

  /** getAllActiveByUser: the active lobbies the user created, in repository order. */
  function ActiveByUser(ls: seq<Lobby>, user: string): (r: seq<Lobby>)
    reads ls
    ensures forall j :: 0 <= j < |r| ==> r[j] in ls && r[j].createdBy == user && IsActive(r[j].status)
    ensures forall i :: 0 <= i < |ls| && ls[i].createdBy == user && IsActive(ls[i].status) ==> ls[i] in r
  {
    if ls == [] then []
    else
      var rest := ActiveByUser(ls[1..], user);
      if ls[0].createdBy == user && IsActive(ls[0].status) then [ls[0]] + rest else rest
  }

  /** The user created a lobby that is still active: getAllActiveByUser returns at least one lobby. */
  predicate CreatedActiveLobby(ls: seq<Lobby>, user: string)
    reads ls
    ensures CreatedActiveLobby(ls, user) <==> exists i :: 0 <= i < |ls| && ls[i].createdBy == user && IsActive(ls[i].status)
  {
    var found := ActiveByUser(ls, user);
    assert |found| > 0 ==> found[0] in ls;
    |found| > 0
  }

  /** The lobby queues a player with this discord id. */
  predicate Queues(l: Lobby, discord: Option<string>)
    reads l
  {
    exists j :: 0 <= j < |l.queuedPlayers| && l.queuedPlayers[j].discord == discord
  }

  /** getQueuedInLobby: the active lobbies queuing a player with this discord id, in repository order. */
  function QueuedIn(ls: seq<Lobby>, discord: Option<string>): (r: seq<Lobby>)
    reads ls
    ensures forall j :: 0 <= j < |r| ==> r[j] in ls && IsActive(r[j].status) && Queues(r[j], discord)
    ensures forall i :: 0 <= i < |ls| && IsActive(ls[i].status) && Queues(ls[i], discord) ==> ls[i] in r
  {
    if ls == [] then []
    else
      var rest := QueuedIn(ls[1..], discord);
      if IsActive(ls[0].status) && Queues(ls[0], discord) then [ls[0]] + rest else rest
  }

  /** Some active lobby queues a player with this discord id: getQueuedInLobby returns at least one lobby. */
  predicate QueuedInActiveLobby(ls: seq<Lobby>, discord: Option<string>)
    reads ls
    ensures QueuedInActiveLobby(ls, discord) <==>
      exists i, j :: 0 <= i < |ls| && IsActive(ls[i].status) && 0 <= j < |ls[i].queuedPlayers|
        && ls[i].queuedPlayers[j].discord == discord
  {
    var found := QueuedIn(ls, discord);
    assert |found| > 0 ==> found[0] in ls;
    |found| > 0
  }

  /** Position of the lobby with the given id (the repository's findById). */
  function IndexOfLobby(ls: seq<Lobby>, id: string): (r: Option<nat>)
    ensures r.Some? ==> r.value < |ls| && ls[r.value].id == id
    ensures r.Some? ==> forall j :: 0 <= j < r.value ==> ls[j].id != id
    ensures r.None? <==> forall i :: 0 <= i < |ls| ==> ls[i].id != id
  {
    FindFirst(ls, (l: Lobby) => l.id == id)
  }

  /**
   * Position of the first lobby with the given id that is active: the
   * lobby close's findOne with the id and the active statuses.
   */
  function IndexOfActiveLobby(ls: seq<Lobby>, id: string): (r: Option<nat>)
    reads ls
    ensures r.Some? ==> r.value < |ls| && ls[r.value].id == id && IsActive(ls[r.value].status)
    ensures r.Some? ==> forall j :: 0 <= j < r.value ==> !(ls[j].id == id && IsActive(ls[j].status))
    ensures r.None? <==> forall i :: 0 <= i < |ls| ==> !(ls[i].id == id && IsActive(ls[i].status))
  {
    if ls == [] then None
    else if ls[0].id == id && IsActive(ls[0].status) then Some(0)
    else
      var r := IndexOfActiveLobby(ls[1..], id);
      if r.None? then None else Some(r.value + 1)
  }

  /** The lobbies `monitor` visits: those waiting for required players, in repository order. */
  function WaitingLobbies(ls: seq<Lobby>): (r: seq<Lobby>)
    reads ls
    ensures forall j :: 0 <= j < |r| ==> r[j] in ls && r[j].status == WaitingForRequiredPlayers
    ensures forall i :: 0 <= i < |ls| && ls[i].status == WaitingForRequiredPlayers ==> ls[i] in r
  {
    if ls == [] then []
    else
      var rest := WaitingLobbies(ls[1..]);
      if ls[0].status == WaitingForRequiredPlayers then [ls[0]] + rest else rest
  }

  /** getPlayer: NotFound for a missing lobby, otherwise the first selected queued player, if any. */
  function GetPlayer(ls: seq<Lobby>, id: string, kind: IdKind, pid: string): (r: Result<Option<Player>, Error>)
    reads ls
    ensures IndexOfLobby(ls, id).None? <==> r == Err(LobbyNotFound)
    ensures IndexOfLobby(ls, id).Some? ==> r == Ok(SelectPlayer(ls[IndexOfLobby(ls, id).value].queuedPlayers, kind, pid))
  {
    match IndexOfLobby(ls, id)
    case None => Err(LobbyNotFound)
    case Some(k) => Ok(SelectPlayer(ls[k].queuedPlayers, kind, pid))
  }

  /** monitorLobby's expiry test: createdAt plus the expiry time (in seconds) is not after `now`. */
  predicate PastExpiry(l: Lobby, now: int) {
    l.createdAt + l.expiryTime <= now
  }

  /**
   * What one monitor pass leaves in a waiting lobby, given whether its
   * queue `queue` at the start of the pass met the requirements.
   */
  predicate Outcome(l: Lobby, now: int, met: bool, queue: seq<Player>)
    reads l
  {
    (PastExpiry(l, now) ==> l.status == Expired)
    && (!PastExpiry(l, now) && !met ==> l.status == WaitingForRequiredPlayers && l.queuedPlayers == queue)
    && (!PastExpiry(l, now) && met ==> l.status == Distributed && (l.distribution != Random ==> l.queuedPlayers == queue))
  }

  /** The matches of `ms` with the given id: the only documents processing a lobby may touch. */
  function WithId(ms: seq<Matches.Match>, id: string): set<Matches.Match> {
    set m | m in ms && m.id == id
  }

  /** The lobby's match, when the repository has one, is ready and holds the lobby's queue as its players. */
  predicate MatchReady(ms: seq<Matches.Match>, l: Lobby)
    reads l, WithId(ms, l.matchId)
  {
    var k := Matches.IndexOfId(ms, l.matchId);
    k.Some? ==> ms[k.value].status == MatchStatus.LobbyReady && ms[k.value].players == l.queuedPlayers
  }

  /** No other lobby of `ls` refers to the match of `l`. */
  predicate OwnsMatch(ls: seq<Lobby>, l: Lobby) {
    forall w :: w in ls && w != l ==> w.matchId != l.matchId
  }

  /**
   * The effects of the first `n` visits outside the lobbies themselves: an
   * expired lobby's match close was requested, and a processed lobby that
   * owns its match has that match ready with its queue.
   */
  predicate Effects(waiting: seq<Lobby>, queues: map<Lobby, seq<Player>>, n: nat, now: int,
                    ms: seq<Matches.Match>, closed: seq<string>)
    requires n <= |waiting|
    requires forall l :: l in waiting ==> l in queues
    reads waiting, ms
  {
    forall l :: l in waiting[..n] ==>
      (PastExpiry(l, now) ==> l.matchId in closed)
      && (!PastExpiry(l, now) && CheckForRequiredPlayers(queues[l], l.requirements) && OwnsMatch(waiting, l) ==> MatchReady(ms, l))
  }

  /** A lobby the monitor pass has not reached yet: still waiting, with its queue `queue` from the start of the pass. */
  predicate Pending(l: Lobby, queue: seq<Player>)
    reads l
  {
    l.status == WaitingForRequiredPlayers && l.queuedPlayers == queue
  }

  /**
   * The state of the monitor pass after `n` visits: a lobby not visited yet
   * is `Pending` with its queue from the start of the pass (`queues`), a
   * visited one shows its `Outcome`.
   */
  predicate Progress(waiting: seq<Lobby>, queues: map<Lobby, seq<Player>>, n: nat, now: int)
    requires n <= |waiting|
    requires forall l :: l in waiting ==> l in queues
    reads waiting
  {
    forall l :: l in waiting ==>
      (l !in waiting[..n] ==> Pending(l, queues[l]))
      && (l in waiting[..n] ==> Outcome(l, now, CheckForRequiredPlayers(queues[l], l.requirements), queues[l]))
  }

  /** The match options of a lobby request, with the lobby's callback URL when the match has none. */
  function EffectiveMatchOptions(request: LobbyRequest): (o: Matches.MatchRequest)
    ensures o.callbackUrl == if request.matchOptions.callbackUrl == "" then request.callbackUrl else request.matchOptions.callbackUrl
    ensures o.(callbackUrl := request.matchOptions.callbackUrl) == request.matchOptions
  {
    if request.matchOptions.callbackUrl == "" then request.matchOptions.(callbackUrl := request.callbackUrl)
    else request.matchOptions
  }

  /**
   * The current lobby service. `lobbies` stands for the repository,
   * `closeRequests` for the match ids passed to the match service's close
   * operation, and `statusUpdates` for the calls of `lobby.updateStatus`.
   */
  class LobbyService {
    var lobbies: seq<Lobby>
    var closeRequests: seq<string>
    var statusUpdates: seq<StatusUpdate>
    const matchService: Matches.MatchService

    constructor (lobbies: seq<Lobby>, matchService: Matches.MatchService)
      ensures this.lobbies == lobbies && this.matchService == matchService
      ensures closeRequests == [] && statusUpdates == []
    {
      this.lobbies := lobbies;
      this.matchService := matchService;
      closeRequests := [];
      statusUpdates := [];
    }

    /**
     * createRequest: refused when the user created an active lobby or is
     * queued in one; otherwise the match is created first (its refusal is
     * passed on) and a lobby waiting for required players is stored, with
     * maxPlayers from the match options and the expiry defaulting to 1800.
     */
    method CreateRequest(c: Client, request: LobbyRequest, id: string, matchId: string, now: int) returns (r: Result<Lobby, Error>)
      modifies this, matchService
      ensures closeRequests == old(closeRequests) && statusUpdates == old(statusUpdates)
      ensures matchService.outbox == old(matchService.outbox) && matchService.serverRequests == old(matchService.serverRequests)
      ensures r == Err(AlreadyCreatedLobby) <==> old(CreatedActiveLobby(lobbies, request.userId))
      ensures r == Err(AlreadyQueued) <==>
        !old(CreatedActiveLobby(lobbies, request.userId)) && old(QueuedInActiveLobby(lobbies, Some(request.userId)))
      ensures !old(CreatedActiveLobby(lobbies, request.userId)) && !old(QueuedInActiveLobby(lobbies, Some(request.userId))) ==>
        var refusal := MatchAdmission.Admission(c, request.matchOptions.game, request.matchOptions.region,
                                                old(Matches.CountActive(matchService.matches, c.id, Matches.IsActive)));
        (r.Ok? <==> refusal.None?) && (refusal.Some? ==> r == Err(refusal.value))
      ensures r.Err? ==> lobbies == old(lobbies) && matchService.matches == old(matchService.matches)
      ensures r.Ok? ==>
        fresh(r.value) && lobbies == old(lobbies) + [r.value]
        && |matchService.matches| == |old(matchService.matches)| + 1
        && var m := matchService.matches[|matchService.matches| - 1];
           var l := r.value;
           fresh(m) && matchService.matches == old(matchService.matches) + [m]
           && m.id == matchId && m.createdAt == now && m.client == c.id
           && m.game == request.matchOptions.game && m.region == request.matchOptions.region
           && m.callbackUrl == EffectiveMatchOptions(request).callbackUrl && m.status == MatchStatus.WaitingForLobby
           && m.players == request.matchOptions.players.GetOr([]) && m.requiredPlayers == request.matchOptions.requiredPlayers
           && m.server == None
           && Matches.CountActive(matchService.matches, c.id, Matches.IsActive)
              == old(Matches.CountActive(matchService.matches, c.id, Matches.IsActive)) + 1
           && l.id == id && l.matchId == matchId && l.client == c.id && l.createdBy == request.userId
           && l.status == WaitingForRequiredPlayers && l.distribution == request.distribution
           && l.createdAt == now && l.requirements == request.requirements
           && l.queuedPlayers == request.queuedPlayers.GetOr([])
           && l.maxPlayers == request.matchOptions.requiredPlayers && l.callbackUrl == request.callbackUrl
           && l.expiryTime == ExpiryOrDefault(request.expiryTime)
    {
      var options := EffectiveMatchOptions(request);
      if CreatedActiveLobby(lobbies, request.userId) {
        return Err(AlreadyCreatedLobby);
      }
      if QueuedInActiveLobby(lobbies, Some(request.userId)) {
        return Err(AlreadyQueued);
      }
      var created := matchService.CreateRequest(c, options, matchId, now);
      if created.Err? {
        return Err(created.error);
      }
      var lobby := new Lobby(id, now, created.value.id, c.id, request.userId, request.distribution, request.requirements,
                             options.requiredPlayers, request.callbackUrl, ExpiryOrDefault(request.expiryTime),
                             WaitingForRequiredPlayers, request.queuedPlayers.GetOr([]));
      lobbies := lobbies + [lobby];
      r := Ok(lobby);
    }

    /**
     * close: nothing happens when no active lobby has the id. Otherwise the
     * first active lobby with the id has its match closed; only when that
     * reports Closed does the lobby become Closed and is returned.
     * `outcome` is the status the match service's close reports (None when
     * it raised).
     */
    method Close(id: string, outcome: Option<MatchStatus>) returns (r: Option<Lobby>)
      modifies this, lobbies
      ensures lobbies == old(lobbies)
      ensures forall i :: 0 <= i < |lobbies| ==> lobbies[i].queuedPlayers == old(lobbies[i].queuedPlayers)
      ensures var k := old(IndexOfActiveLobby(lobbies, id));
        if k.None? then
          r == None && closeRequests == old(closeRequests) && statusUpdates == old(statusUpdates)
          && forall i :: 0 <= i < |lobbies| ==> lobbies[i].status == old(lobbies[i].status)
        else
          var l := lobbies[k.value];
          closeRequests == old(closeRequests) + [l.matchId]
          && (outcome == Some(MatchStatus.Closed) ==>
                r == Some(l) && l.status == LobbyStatus.Closed
                && statusUpdates == old(statusUpdates) + [StatusUpdate(id, LobbyStatus.Closed)])
          && (outcome != Some(MatchStatus.Closed) ==>
                r == None && statusUpdates == old(statusUpdates)
                && forall i :: 0 <= i < |lobbies| ==> lobbies[i].status == old(lobbies[i].status))
          && forall i :: 0 <= i < |lobbies| && lobbies[i] != l ==> lobbies[i].status == old(lobbies[i].status)
    {
      var k := IndexOfActiveLobby(lobbies, id);
      if k.None? {
        return None;
      }
      var l := lobbies[k.value];
      closeRequests := closeRequests + [l.matchId];
      if outcome == Some(MatchStatus.Closed) {
        l.status := LobbyStatus.Closed;
        statusUpdates := statusUpdates + [StatusUpdate(id, LobbyStatus.Closed)];
        return Some(l);
      }
      r := None;
    }

    /**
     * addPlayer: refused when the player's discord id is queued in any
     * active lobby (this one included), when the lobby is missing, or when
     * it is not waiting for players; otherwise the player is appended.
     */
    method AddPlayer(id: string, player: Player) returns (r: Result<Lobby, Error>)
      modifies lobbies
      ensures lobbies == old(lobbies)
      ensures forall i :: 0 <= i < |lobbies| ==> lobbies[i].status == old(lobbies[i].status)
      ensures old(QueuedInActiveLobby(lobbies, player.discord)) ==> r == Err(AlreadyQueued)
      ensures !old(QueuedInActiveLobby(lobbies, player.discord)) && IndexOfLobby(lobbies, id).None? ==> r == Err(LobbyNotFound)
      ensures r.Err? ==> forall i :: 0 <= i < |lobbies| ==> lobbies[i].queuedPlayers == old(lobbies[i].queuedPlayers)
      ensures !old(QueuedInActiveLobby(lobbies, player.discord)) && IndexOfLobby(lobbies, id).Some? ==>
        var l := lobbies[IndexOfLobby(lobbies, id).value];
        (l.status != WaitingForRequiredPlayers ==> r == Err(CannotJoin))
        && (l.status == WaitingForRequiredPlayers ==>
              r == Ok(l) && l.queuedPlayers == old(l.queuedPlayers) + [player]
              && forall i :: 0 <= i < |lobbies| && lobbies[i] != l ==> lobbies[i].queuedPlayers == old(lobbies[i].queuedPlayers))
    {
      if QueuedInActiveLobby(lobbies, player.discord) {
        return Err(AlreadyQueued);
      }
      var k := IndexOfLobby(lobbies, id);
      if k.None? {
        return Err(LobbyNotFound);
      }
      var l := lobbies[k.value];
      if l.status != WaitingForRequiredPlayers {
        return Err(CannotJoin);
      }
      l.queuedPlayers := l.queuedPlayers + [player];
      r := Ok(l);
    }

    /** removePlayer: for a lobby waiting for players, every entry selected by the identifier is dropped. */
    method RemovePlayer(id: string, kind: IdKind, pid: string) returns (r: Result<Lobby, Error>)
      modifies lobbies
      ensures lobbies == old(lobbies)
      ensures forall i :: 0 <= i < |lobbies| ==> lobbies[i].status == old(lobbies[i].status)
      ensures IndexOfLobby(lobbies, id).None? ==> r == Err(LobbyNotFound)
      ensures r.Err? ==> forall i :: 0 <= i < |lobbies| ==> lobbies[i].queuedPlayers == old(lobbies[i].queuedPlayers)
      ensures IndexOfLobby(lobbies, id).Some? ==>
        var l := lobbies[IndexOfLobby(lobbies, id).value];
        (l.status != WaitingForRequiredPlayers ==> r == Err(CannotLeave))
        && (l.status == WaitingForRequiredPlayers ==>
              r == Ok(l) && l.queuedPlayers == WithoutPlayer(old(l.queuedPlayers), kind, pid)
              && forall i :: 0 <= i < |lobbies| && lobbies[i] != l ==> lobbies[i].queuedPlayers == old(lobbies[i].queuedPlayers))
    {
      var k := IndexOfLobby(lobbies, id);
      if k.None? {
        return Err(LobbyNotFound);
      }
      var l := lobbies[k.value];
      if l.status != WaitingForRequiredPlayers {
        return Err(CannotLeave);
      }
      l.queuedPlayers := WithoutPlayer(l.queuedPlayers, kind, pid);
      r := Ok(l);
    }

    /** addPlayerRole: for a lobby waiting for players, the role is appended to the first selected player. */
    method AddPlayerRole(id: string, kind: IdKind, pid: string, role: Role) returns (r: Result<Lobby, Error>)
      modifies lobbies
      ensures lobbies == old(lobbies)
      ensures forall i :: 0 <= i < |lobbies| ==> lobbies[i].status == old(lobbies[i].status)
      ensures IndexOfLobby(lobbies, id).None? ==> r == Err(LobbyNotFound)
      ensures r.Err? ==> forall i :: 0 <= i < |lobbies| ==> lobbies[i].queuedPlayers == old(lobbies[i].queuedPlayers)
      ensures IndexOfLobby(lobbies, id).Some? ==>
        var l := lobbies[IndexOfLobby(lobbies, id).value];
        var found := FindFirst(old(l.queuedPlayers), Selected(kind, pid));
        (l.status != WaitingForRequiredPlayers ==> r == Err(CannotEditRoles))
        && (l.status == WaitingForRequiredPlayers && found.None? ==> r == Err(PlayerNotFound))
        && (l.status == WaitingForRequiredPlayers && found.Some? ==>
              r == Ok(l) && l.queuedPlayers == WithRoleAdded(old(l.queuedPlayers), found.value, role)
              && forall i :: 0 <= i < |lobbies| && lobbies[i] != l ==> lobbies[i].queuedPlayers == old(lobbies[i].queuedPlayers))
    {
      var k := IndexOfLobby(lobbies, id);
      if k.None? {
        return Err(LobbyNotFound);
      }
      var l := lobbies[k.value];
      if l.status != WaitingForRequiredPlayers {
        return Err(CannotEditRoles);
      }
      var found := FindFirst(l.queuedPlayers, Selected(kind, pid));
      if found.None? {
        return Err(PlayerNotFound);
      }
      l.queuedPlayers := WithRoleAdded(l.queuedPlayers, found.value, role);
      r := Ok(l);
    }

    /** removePlayerRole: for a lobby waiting for players, every occurrence of the role leaves the first selected player. */
    method RemovePlayerRole(id: string, kind: IdKind, pid: string, role: Role) returns (r: Result<Lobby, Error>)
      modifies lobbies
      ensures lobbies == old(lobbies)
      ensures forall i :: 0 <= i < |lobbies| ==> lobbies[i].status == old(lobbies[i].status)
      ensures IndexOfLobby(lobbies, id).None? ==> r == Err(LobbyNotFound)
      ensures r.Err? ==> forall i :: 0 <= i < |lobbies| ==> lobbies[i].queuedPlayers == old(lobbies[i].queuedPlayers)
      ensures IndexOfLobby(lobbies, id).Some? ==>
        var l := lobbies[IndexOfLobby(lobbies, id).value];
        var found := FindFirst(old(l.queuedPlayers), Selected(kind, pid));
        (l.status != WaitingForRequiredPlayers ==> r == Err(CannotEditRoles))
        && (l.status == WaitingForRequiredPlayers && found.None? ==> r == Err(PlayerNotFound))
        && (l.status == WaitingForRequiredPlayers && found.Some? ==>
              var k := found.value;
              r == Ok(l) && l.queuedPlayers == WithRoles(old(l.queuedPlayers), k, WithoutRole(old(l.queuedPlayers)[k].roles, role))
              && forall i :: 0 <= i < |lobbies| && lobbies[i] != l ==> lobbies[i].queuedPlayers == old(lobbies[i].queuedPlayers))
    {
      var k := IndexOfLobby(lobbies, id);
      if k.None? {
        return Err(LobbyNotFound);
      }
      var l := lobbies[k.value];
      if l.status != WaitingForRequiredPlayers {
        return Err(CannotEditRoles);
      }
      var found := FindFirst(l.queuedPlayers, Selected(kind, pid));
      if found.None? {
        return Err(PlayerNotFound);
      }
      l.queuedPlayers := WithRoles(l.queuedPlayers, found.value, WithoutRole(l.queuedPlayers[found.value].roles, role));
      r := Ok(l);
    }

    /** handleExpiredLobby: the lobby becomes Expired and its match is closed. */
    method HandleExpiredLobby(lobby: Lobby)
      modifies this, lobby
      ensures lobbies == old(lobbies)
      ensures lobby.status == Expired && lobby.queuedPlayers == old(lobby.queuedPlayers)
      ensures statusUpdates == old(statusUpdates) + [StatusUpdate(lobby.id, Expired)]
      ensures closeRequests == old(closeRequests) + [lobby.matchId]
    {
      lobby.status := Expired;
      statusUpdates := statusUpdates + [StatusUpdate(lobby.id, Expired)];
      closeRequests := closeRequests + [lobby.matchId];
    }

    /**
     * processLobby: Distributing, the distribution, Distributed; then the
     * lobby's match (NotFound when missing) takes the queue as its players
     * and becomes LobbyReady.
     */
    method ProcessLobby(lobby: Lobby, coins: seq<bool>) returns (r: Result<(), Error>)
      modifies this, lobby, WithId(matchService.matches, lobby.matchId)
      ensures lobbies == old(lobbies) && closeRequests == old(closeRequests)
      ensures lobby.status == Distributed
      ensures r == Ok(()) || r == Err(MatchNotFound)
      ensures statusUpdates == old(statusUpdates) + [StatusUpdate(lobby.id, Distributing), StatusUpdate(lobby.id, Distributed)]
      ensures lobby.distribution == Random ==>
        lobby.queuedPlayers == RandomDistribution.RandomTagged(old(lobby.queuedPlayers), coins)
      ensures lobby.distribution != Random ==> lobby.queuedPlayers == old(lobby.queuedPlayers)
      ensures var k := Matches.IndexOfId(matchService.matches, lobby.matchId);
        (k.None? <==> r == Err(MatchNotFound))
        && (k.Some? ==>
              var m := matchService.matches[k.value];
              m.players == lobby.queuedPlayers && m.status == MatchStatus.LobbyReady
              && forall i :: 0 <= i < |matchService.matches| && matchService.matches[i] != m ==>
                   matchService.matches[i].status == old(matchService.matches[i].status)
                   && matchService.matches[i].players == old(matchService.matches[i].players))
      ensures Matches.IndexOfId(matchService.matches, lobby.matchId).None? ==> forall i :: 0 <= i < |matchService.matches| ==>
        matchService.matches[i].status == old(matchService.matches[i].status)
        && matchService.matches[i].players == old(matchService.matches[i].players)
      ensures forall i :: 0 <= i < |matchService.matches| ==> matchService.matches[i].server == old(matchService.matches[i].server)
      ensures MatchReady(matchService.matches, lobby)
    {
      lobby.status := Distributing;
      statusUpdates := statusUpdates + [StatusUpdate(lobby.id, Distributing)];
      var _ := Distributor.Distribute(lobby, coins);
      lobby.status := Distributed;
      statusUpdates := statusUpdates + [StatusUpdate(lobby.id, Distributed)];
      var k := Matches.IndexOfId(matchService.matches, lobby.matchId);
      if k.None? {
        return Err(MatchNotFound);
      }
      var m := matchService.matches[k.value];
      m.players := lobby.queuedPlayers;
      m.status := MatchStatus.LobbyReady;
      r := Ok(());
    }

    /**
     * monitorLobby: an expired lobby is handled as expired without looking
     * at its queue; otherwise it is processed exactly when its requirements
     * are met, and left alone when they are not.
     */
    method MonitorLobby(lobby: Lobby, now: int, coins: seq<bool>) returns (r: Result<(), Error>)
      modifies this, lobby, WithId(matchService.matches, lobby.matchId)
      ensures lobbies == old(lobbies)
      ensures PastExpiry(lobby, now) ==>
        r == Ok(()) && lobby.status == Expired && lobby.queuedPlayers == old(lobby.queuedPlayers)
        && closeRequests == old(closeRequests) + [lobby.matchId]
        && statusUpdates == old(statusUpdates) + [StatusUpdate(lobby.id, Expired)]
      ensures !PastExpiry(lobby, now) && !CheckForRequiredPlayers(old(lobby.queuedPlayers), lobby.requirements) ==>
        r == Ok(()) && lobby.status == old(lobby.status) && lobby.queuedPlayers == old(lobby.queuedPlayers)
        && closeRequests == old(closeRequests) && statusUpdates == old(statusUpdates)
      ensures !PastExpiry(lobby, now) && CheckForRequiredPlayers(old(lobby.queuedPlayers), lobby.requirements) ==>
        lobby.status == Distributed && closeRequests == old(closeRequests)
        && statusUpdates == old(statusUpdates) + [StatusUpdate(lobby.id, Distributing), StatusUpdate(lobby.id, Distributed)]
        && (lobby.distribution == Random ==>
              lobby.queuedPlayers == RandomDistribution.RandomTagged(old(lobby.queuedPlayers), coins))
        && (lobby.distribution != Random ==> lobby.queuedPlayers == old(lobby.queuedPlayers))
        && (r.Err? <==> Matches.IndexOfId(matchService.matches, lobby.matchId).None?)
        && (r.Err? ==> r.error == MatchNotFound)
        && MatchReady(matchService.matches, lobby)
      ensures !(!PastExpiry(lobby, now) && CheckForRequiredPlayers(old(lobby.queuedPlayers), lobby.requirements)) ==>
        forall i :: 0 <= i < |matchService.matches| ==>
          matchService.matches[i].status == old(matchService.matches[i].status)
          && matchService.matches[i].players == old(matchService.matches[i].players)
      ensures forall i :: 0 <= i < |matchService.matches| ==> matchService.matches[i].server == old(matchService.matches[i].server)
    {
      if PastExpiry(lobby, now) {
        HandleExpiredLobby(lobby);
        return Ok(());
      }
      if CheckForRequiredPlayers(lobby.queuedPlayers, lobby.requirements) {
        r := ProcessLobby(lobby, coins);
      } else {
        r := Ok(());
      }
    }

    /**
     * monitor: visits every lobby waiting for required players when the
     * pass starts, one monitorLobby step each; `coins[j]` supplies the
     * draws of the j-th visit. Errors of a step do not stop the pass.
     */
    method Monitor(now: int, coins: seq<seq<bool>>)
      modifies this, lobbies, matchService.matches
      ensures lobbies == old(lobbies)
      ensures forall i :: 0 <= i < |lobbies| && old(lobbies[i].status) != WaitingForRequiredPlayers ==>
        lobbies[i].status == old(lobbies[i].status) && lobbies[i].queuedPlayers == old(lobbies[i].queuedPlayers)
      ensures forall i :: 0 <= i < |lobbies| && old(lobbies[i].status) == WaitingForRequiredPlayers && PastExpiry(lobbies[i], now) ==>
        lobbies[i].status == Expired && lobbies[i].matchId in closeRequests
      ensures forall i :: 0 <= i < |lobbies| && old(lobbies[i].status) == WaitingForRequiredPlayers && !PastExpiry(lobbies[i], now)
                          && !old(CheckForRequiredPlayers(lobbies[i].queuedPlayers, lobbies[i].requirements)) ==>
        lobbies[i].status == WaitingForRequiredPlayers && lobbies[i].queuedPlayers == old(lobbies[i].queuedPlayers)
      ensures forall i :: 0 <= i < |lobbies| && old(lobbies[i].status) == WaitingForRequiredPlayers && !PastExpiry(lobbies[i], now)
                          && old(CheckForRequiredPlayers(lobbies[i].queuedPlayers, lobbies[i].requirements)) ==>
        lobbies[i].status == Distributed
        && (lobbies[i].distribution != Random ==> lobbies[i].queuedPlayers == old(lobbies[i].queuedPlayers))
      ensures forall i :: 0 <= i < |lobbies| && old(lobbies[i].status) == WaitingForRequiredPlayers && !PastExpiry(lobbies[i], now)
                          && old(CheckForRequiredPlayers(lobbies[i].queuedPlayers, lobbies[i].requirements))
                          && OwnsMatch(old(WaitingLobbies(lobbies)), lobbies[i]) ==>
        MatchReady(matchService.matches, lobbies[i])
    {
      var waiting := WaitingLobbies(lobbies);
      ghost var queues := map l | l in waiting :: l.queuedPlayers;
      RunPass(waiting, queues, now, coins);
    }

    /**
     * The loop of monitor: visits the waiting lobbies in order, one
     * monitorLobby step each, with `coins[j]` as the draws of the j-th visit;
     * each lobby ends with the `Outcome` its queue at the start of the pass decides.
     */
    method RunPass(waiting: seq<Lobby>, ghost queues: map<Lobby, seq<Player>>, now: int, coins: seq<seq<bool>>)
      requires forall l :: l in waiting ==>
        l in queues && l.status == WaitingForRequiredPlayers && l.queuedPlayers == queues[l]
      modifies this, waiting, matchService.matches
      ensures lobbies == old(lobbies)
      ensures forall l :: l in waiting ==>
        l in queues && Outcome(l, now, CheckForRequiredPlayers(queues[l], l.requirements), queues[l])
      ensures Effects(waiting, queues, |waiting|, now, matchService.matches, closeRequests)
    {
      var n := 0;
      assert waiting[..n] == [];
      while n < |waiting|
        invariant n <= |waiting|
        invariant lobbies == old(lobbies)
        invariant Progress(waiting, queues, n, now)
        invariant Effects(waiting, queues, n, now, matchService.matches, closeRequests)
      {
        var draws := if n < |coins| then coins[n] else [];
        VisitWaiting(waiting, queues, n, now, draws);
        n := n + 1;
      }
      assert waiting[..n] == waiting;
    }

    /** One visit of the monitor pass keeps `Progress` and advances it by one lobby. */
    method VisitWaiting(waiting: seq<Lobby>, ghost queues: map<Lobby, seq<Player>>, n: nat, now: int, draws: seq<bool>)
      requires n < |waiting|
      requires forall l :: l in waiting ==> l in queues
      requires Progress(waiting, queues, n, now)
      requires Effects(waiting, queues, n, now, matchService.matches, closeRequests)
      modifies this, waiting[n], WithId(matchService.matches, waiting[n].matchId)
      ensures lobbies == old(lobbies)
      ensures Progress(waiting, queues, n + 1, now)
      ensures Effects(waiting, queues, n + 1, now, matchService.matches, closeRequests)
    {
      var lobby := waiting[n];
      ghost var closed0 := closeRequests;
      ghost var q := queues[lobby];
      ghost var met := CheckForRequiredPlayers(q, lobby.requirements);
      ghost var revisit := lobby in waiting[..n];
      assert revisit ==> Outcome(lobby, now, met, q);
      assert !revisit ==> Pending(lobby, q);
      var _ := MonitorLobby(lobby, now, draws);
      assert Outcome(lobby, now, met, q);
      ghost var v := Visit(waiting, queues, n, now, matchService.matches, closed0, closeRequests);
      KeepProgress(v);
      KeepEffects(v);
    }
  }

  /**
   * One visit of the monitor pass, as `KeepEffects` sees it: the visited
   * position `n` of `waiting`, the pass's start queues, the match
   * repository, and the close requests before (`closed0`) and after
   * (`closed1`) the visit.
   */
  datatype Visit = Visit(waiting: seq<Lobby>, queues: map<Lobby, seq<Player>>, n: nat, now: int,
                         ms: seq<Matches.Match>, closed0: seq<string>, closed1: seq<string>)

  /**
   * One monitor visit keeps `Progress` and extends it to the visited lobby,
   * given that the visited lobby shows its `Outcome` and no other lobby
   * changed.
   */
  twostate lemma KeepProgress(v: Visit)
    requires v.n < |v.waiting|
    requires forall l :: l in v.waiting ==> l in v.queues
    requires old(Progress(v.waiting, v.queues, v.n, v.now))
    requires Outcome(v.waiting[v.n], v.now, CheckForRequiredPlayers(v.queues[v.waiting[v.n]], v.waiting[v.n].requirements),
                     v.queues[v.waiting[v.n]])
    requires forall l :: l in v.waiting && l != v.waiting[v.n] ==>
      l.status == old(l.status) && l.queuedPlayers == old(l.queuedPlayers)
    ensures Progress(v.waiting, v.queues, v.n + 1, v.now)
  {
    var Visit(waiting, queues, n, now, _, _, _) := v;
    assert waiting[..n + 1] == waiting[..n] + [waiting[n]];
    forall l | l in waiting
      ensures l !in waiting[..n + 1] ==> Pending(l, queues[l])
      ensures l in waiting[..n + 1] ==> Outcome(l, now, CheckForRequiredPlayers(queues[l], l.requirements), queues[l])
    {
      if l != waiting[n] {
        assert old(Pending(l, queues[l])) ==> Pending(l, queues[l]);
        assert old(Outcome(l, now, CheckForRequiredPlayers(queues[l], l.requirements), queues[l]))
          ==> Outcome(l, now, CheckForRequiredPlayers(queues[l], l.requirements), queues[l]);
      }
    }
  }

  /**
   * One monitor visit keeps `Effects` and extends it to the visited lobby,
   * given what the visit (a monitorLobby step on `waiting[n]`) changed: the
   * close requests only grew, the visited lobby's match is ready when it was
   * processed, and nothing else changed.
   */
  twostate lemma KeepEffects(v: Visit)
    requires v.n < |v.waiting|
    requires forall l :: l in v.waiting ==> l in v.queues
    requires old(Effects(v.waiting, v.queues, v.n, v.now, v.ms, v.closed0))
    requires v.waiting[v.n] !in v.waiting[..v.n] ==> old(v.waiting[v.n].queuedPlayers) == v.queues[v.waiting[v.n]]
    requires forall x :: x in v.closed0 ==> x in v.closed1
    requires PastExpiry(v.waiting[v.n], v.now) ==> v.waiting[v.n].matchId in v.closed1
    requires !PastExpiry(v.waiting[v.n], v.now) && old(CheckForRequiredPlayers(v.waiting[v.n].queuedPlayers, v.waiting[v.n].requirements)) ==>
      MatchReady(v.ms, v.waiting[v.n])
    requires !(!PastExpiry(v.waiting[v.n], v.now) && old(CheckForRequiredPlayers(v.waiting[v.n].queuedPlayers, v.waiting[v.n].requirements))) ==>
      v.waiting[v.n].queuedPlayers == old(v.waiting[v.n].queuedPlayers)
      && forall m :: m in v.ms ==> m.status == old(m.status) && m.players == old(m.players)
    requires forall l :: l in v.waiting && l != v.waiting[v.n] ==> l.queuedPlayers == old(l.queuedPlayers)
    requires forall m :: m in v.ms && m.id != v.waiting[v.n].matchId ==> m.status == old(m.status) && m.players == old(m.players)
    ensures Effects(v.waiting, v.queues, v.n + 1, v.now, v.ms, v.closed1)
  {
    var Visit(waiting, queues, n, now, ms, closed0, closed1) := v;
    var revisit := waiting[n] in waiting[..n];
    var lobby := waiting[n];
    assert waiting[..n + 1] == waiting[..n] + [lobby];
    forall l | l in waiting[..n + 1]
      ensures PastExpiry(l, now) ==> l.matchId in closed1
      ensures !PastExpiry(l, now) && CheckForRequiredPlayers(queues[l], l.requirements) && OwnsMatch(waiting, l) ==>
        MatchReady(ms, l)
    {
      if l != lobby || revisit {
        assert l in waiting[..n];
      }
      if !PastExpiry(l, now) && CheckForRequiredPlayers(queues[l], l.requirements) && OwnsMatch(waiting, l) {
        if l != lobby {
          assert lobby.matchId != l.matchId;
          assert old(MatchReady(ms, l));
        } else if revisit && !old(CheckForRequiredPlayers(lobby.queuedPlayers, lobby.requirements)) {
          assert old(MatchReady(ms, l));
        }
      }
    }
  }
}
