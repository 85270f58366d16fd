/** The entitlement and quota checks both match services run before creating a match. */
module MatchAdmission {
  import opened Wrappers
  import opened Entities
  import opened Clients

  /**
   * The admission decision of `createRequest`: game access is checked
   * first, then region access, then whether the client's active matches
   * already reach its quota. `None` admits the request.
   */
  function Admission(c: Client, game: string, region: string, active: nat): (r: Option<Error>)
    ensures r == None <==> HasGameAccess(c, game) && HasRegionAccess(c, region) && active < GetLimit(c)
    ensures r == Some(NoGameAccess) <==> !HasGameAccess(c, game)
    ensures r == Some(NoRegionAccess) <==> HasGameAccess(c, game) && !HasRegionAccess(c, region)
    ensures r == Some(LimitReached) <==> HasGameAccess(c, game) && HasRegionAccess(c, region) && active >= GetLimit(c)
  {
    if !HasGameAccess(c, game) then Some(NoGameAccess)
    else if !HasRegionAccess(c, region) then Some(NoRegionAccess)
    else if active >= GetLimit(c) then Some(LimitReached)
    else None
  }

  /** Fewer active matches never turn an admitted request into a refused one, and more never turn a quota refusal into an admission. */
  lemma QuotaMonotone(c: Client, game: string, region: string, fewer: nat, more: nat)
    requires fewer <= more
    ensures Admission(c, game, region, more) == None ==> Admission(c, game, region, fewer) == None
    ensures Admission(c, game, region, fewer) == Some(LimitReached) ==> Admission(c, game, region, more) == Some(LimitReached)
  {
  }
}
