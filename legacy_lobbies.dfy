/**
 * The older lobby service (lobby.serivce.ts): creation through the current
 * match service and a join guarded by status. Its lobbies never receive a
 * status, so they never accept a join.
 */
module LegacyLobbies {
  import opened Wrappers
  import opened Seqs
  import opened Entities
  import opened Clients
  import Matches
  import MatchAdmission
  import LobbyRules

  /** LOBBY_ACTIVE_STATUS_CONDITION of the older service: of the current service's active statuses only waiting for players is shared. */
  predicate IsActiveLegacy(s: LobbyStatus)
    ensures IsActiveLegacy(s) && LobbyRules.IsActive(s) <==> s == WaitingForRequiredPlayers
  {
    s == WaitingForRequiredPlayers || s == LobbyStatus.Live
  }

  /** The older active set has Live where the current one has Distributing and Distributed. */
  lemma ActiveSetsDiffer()
    ensures IsActiveLegacy(LobbyStatus.Live) && !LobbyRules.IsActive(LobbyStatus.Live)
    ensures LobbyRules.IsActive(Distributing) && !IsActiveLegacy(Distributing)
    ensures LobbyRules.IsActive(Distributed) && !IsActiveLegacy(Distributed)
  {
  }

  /**
   * A lobby creation request of the older service: the match request
   * fields, the lobby type and the requirements. Its own queuedPlayers
   * field is not read; the queue comes from the match request's players.
   */
  datatype LegacyLobbyRequest = LegacyLobbyRequest(matchOptions: Matches.MatchRequest, lobbyType: string,
                                                   requirements: Option<seq<RoleRequirement>>,
                                                   queuedPlayers: Option<seq<Player>>)

  /** A lobby as the older service stores it. */
  class LegacyLobby {
    const id: string
    const matchId: string
    const lobbyType: string
    const createdAt: int
    const requirements: Option<seq<RoleRequirement>>
    var status: LobbyStatus
    var queuedPlayers: seq<Player>

    constructor (id: string, matchId: string, lobbyType: string, createdAt: int,
                 requirements: Option<seq<RoleRequirement>>, queuedPlayers: seq<Player>)
      ensures this.id == id && this.matchId == matchId && this.lobbyType == lobbyType && this.createdAt == createdAt
      ensures this.requirements == requirements && this.queuedPlayers == queuedPlayers
      ensures status == NoStatus
    {
      this.id := id;
      this.matchId := matchId;
      this.lobbyType := lobbyType;
      this.createdAt := createdAt;
      this.requirements := requirements;
      this.queuedPlayers := queuedPlayers;
      status := NoStatus;
    }
  }

  /** Position of the lobby with the given id. */
  function IndexOfLegacyLobby(ls: seq<LegacyLobby>, id: string): (r: Option<nat>)
    ensures r.Some? ==> r.value < |ls| && ls[r.value].id == id
    ensures r.Some? ==> forall j :: 0 <= j < r.value ==> ls[j].id != id
    ensures r.None? <==> forall i :: 0 <= i < |ls| ==> ls[i].id != id
  {
    FindFirst(ls, (l: LegacyLobby) => l.id == id)
  }

  class LegacyLobbyService {
    var lobbies: seq<LegacyLobby>
    const matchService: Matches.MatchService

    constructor (lobbies: seq<LegacyLobby>, matchService: Matches.MatchService)
      ensures this.lobbies == lobbies && this.matchService == matchService
    {
      this.lobbies := lobbies;
      this.matchService := matchService;
    }

    /**
     * createRequest: the match is created first (its refusal is passed on);
     * the lobby stores the match id, the type, the requirements and the
     * match request's players (none when absent), and no status.
     */
    method CreateRequest(c: Client, request: LegacyLobbyRequest, id: string, matchId: string, now: int)
      returns (r: Result<LegacyLobby, Error>)
      modifies this, matchService
      ensures matchService.outbox == old(matchService.outbox) && matchService.serverRequests == old(matchService.serverRequests)
      ensures var refusal := MatchAdmission.Admission(c, request.matchOptions.game, request.matchOptions.region,
                                                      old(Matches.CountActive(matchService.matches, c.id, Matches.IsActive)));
        (r.Err? <==> refusal.Some?) && (r.Err? ==> r.error == refusal.value)
      ensures r.Err? ==> lobbies == old(lobbies) && matchService.matches == old(matchService.matches)
      ensures r.Ok? ==>
        fresh(r.value) && lobbies == old(lobbies) + [r.value]
        && |matchService.matches| == |old(matchService.matches)| + 1
        && var m := matchService.matches[|matchService.matches| - 1];
           var l := r.value;
           fresh(m) && matchService.matches == old(matchService.matches) + [m]
           && m.id == matchId && m.createdAt == now && m.client == c.id
           && m.game == request.matchOptions.game && m.region == request.matchOptions.region
           && m.callbackUrl == request.matchOptions.callbackUrl && m.status == MatchStatus.WaitingForLobby
           && m.players == request.matchOptions.players.GetOr([]) && m.requiredPlayers == request.matchOptions.requiredPlayers
           && m.server == None
           && Matches.CountActive(matchService.matches, c.id, Matches.IsActive)
              == old(Matches.CountActive(matchService.matches, c.id, Matches.IsActive)) + 1
           && l.id == id && l.matchId == matchId && l.lobbyType == request.lobbyType && l.createdAt == now
           && l.requirements == request.requirements
           && l.queuedPlayers == request.matchOptions.players.GetOr([]) && l.status == NoStatus
    {
      var created := matchService.CreateRequest(c, request.matchOptions, matchId, now);
      if created.Err? {
        return Err(created.error);
      }
      var lobby := new LegacyLobby(id, created.value.id, request.lobbyType, now, request.requirements,
                                   request.matchOptions.players.GetOr([]));
      lobbies := lobbies + [lobby];
      r := Ok(lobby);
    }

    /** playerJoin: only a lobby waiting for required players takes the player, appended at the end. */
    method PlayerJoin(id: string, player: Player) returns (r: Result<LegacyLobby, Error>)
      modifies lobbies
      ensures forall i :: 0 <= i < |lobbies| ==> lobbies[i].status == old(lobbies[i].status)
      ensures IndexOfLegacyLobby(lobbies, id).None? ==> r == Err(LobbyNotFound)
      ensures r.Err? ==> forall i :: 0 <= i < |lobbies| ==> lobbies[i].queuedPlayers == old(lobbies[i].queuedPlayers)
      ensures IndexOfLegacyLobby(lobbies, id).Some? ==>
        var l := lobbies[IndexOfLegacyLobby(lobbies, id).value];
        (l.status != WaitingForRequiredPlayers ==> r == Err(CannotJoin))
        && (l.status == WaitingForRequiredPlayers ==>
              r == Ok(l) && l.queuedPlayers == old(l.queuedPlayers) + [player]
              && forall i :: 0 <= i < |lobbies| && lobbies[i] != l ==> lobbies[i].queuedPlayers == old(lobbies[i].queuedPlayers))
    {
      var k := IndexOfLegacyLobby(lobbies, id);
      if k.None? {
        return Err(LobbyNotFound);
      }
      var l := lobbies[k.value];
      if l.status != WaitingForRequiredPlayers {
        return Err(CannotJoin);
      }
      l.queuedPlayers := l.queuedPlayers + [player];
      r := Ok(l);
    }
  }
}
