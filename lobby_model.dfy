/** The lobby document (lobby.model.ts, with the fields the service also writes: maxPlayers and data.expiryTime). The `match` field is `matchId` here. */
module LobbyModel {
  import opened Wrappers
  import opened Entities

  /**
   * A stored lobby. The service changes `status` and `queuedPlayers` in
   * place; the other fields are fixed when the lobby is created. Times are
   * whole seconds.
   */
  class Lobby {
    const id: string
    const createdAt: int
    const matchId: string
    const client: string
    const createdBy: string
    const distribution: DistributionType
    const requirements: seq<RoleRequirement>
    const maxPlayers: Option<int>
    const callbackUrl: string
    const expiryTime: int
    var status: LobbyStatus
    var queuedPlayers: seq<Player>

    constructor (id: string, createdAt: int, matchId: string, client: string, createdBy: string,
                 distribution: DistributionType, requirements: seq<RoleRequirement>, maxPlayers: Option<int>,
                 callbackUrl: string, expiryTime: int, status: LobbyStatus, queuedPlayers: seq<Player>)
      ensures this.id == id && this.createdAt == createdAt && this.matchId == matchId
      ensures this.client == client && this.createdBy == createdBy && this.distribution == distribution
      ensures this.requirements == requirements && this.maxPlayers == maxPlayers
      ensures this.callbackUrl == callbackUrl && this.expiryTime == expiryTime
      ensures this.status == status && this.queuedPlayers == queuedPlayers
    {
      this.id := id;
      this.createdAt := createdAt;
      this.matchId := matchId;
      this.client := client;
      this.createdBy := createdBy;
      this.distribution := distribution;
      this.requirements := requirements;
      this.maxPlayers := maxPlayers;
      this.callbackUrl := callbackUrl;
      this.expiryTime := expiryTime;
      this.status := status;
      this.queuedPlayers := queuedPlayers;
    }
  }
}
