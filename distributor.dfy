/** The distributor service (distributor.service.ts): dispatch on the lobby's distribution type. */
module Distributor {
  import opened Wrappers
  import opened Entities
  import opened LobbyModel
  import RandomDistribution

  /**
   * distribute: only the random type has a handler; for any other type
   * nothing happens and nothing is returned. The lobby's status is never
   * changed here.
   */
  method Distribute(lobby: Lobby, coins: seq<bool>) returns (r: Option<Lobby>)
    modifies lobby
    ensures lobby.status == old(lobby.status)
    ensures lobby.distribution == Random ==>
      r == Some(lobby) && lobby.queuedPlayers == RandomDistribution.RandomTagged(old(lobby.queuedPlayers), coins)
    ensures lobby.distribution != Random ==> r == None && lobby.queuedPlayers == old(lobby.queuedPlayers)
  {
    match lobby.distribution
    case Random =>
      var saved := RandomDistribution.Distribute(lobby, coins);
      r := Some(saved);
    case _ =>
      r := None;
  }
}
