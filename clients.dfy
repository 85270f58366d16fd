/** The entitlement record of an API client and its four lookups (client.model.ts). */
module Clients {
  import opened Wrappers

  datatype RegionAccess = RegionAccess(limit: int)

  /** `access`: the games the client may request, its concurrent-match quota and its regions. */
  datatype Access = Access(games: seq<string>, limit: int, regions: map<string, RegionAccess>)

  datatype Client = Client(id: string, secret: string, name: string, access: Access)

  /** The game is one of the games the client may request. */
  predicate HasGameAccess(c: Client, game: string) {
    game in c.access.games
  }

  /** The region is configured for the client (an own key of its region map). */
  predicate HasRegionAccess(c: Client, region: string) {
    region in c.access.regions
  }

  /** The limit configured for the region, absent exactly when the region is not configured. */
  function GetRegionLimit(c: Client, region: string): (r: Option<int>)
    ensures r.Some? <==> HasRegionAccess(c, region)
    ensures r.Some? ==> r.value == c.access.regions[region].limit
  {
    if region in c.access.regions then Some(c.access.regions[region].limit) else None
  }

  /** The client's quota of concurrently active matches. */
  function GetLimit(c: Client): int {
    c.access.limit
  }
}
