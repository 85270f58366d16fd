/**
 * The older match service (matches.service.ts): the same admission checks
 * against its own active set, a different initial state, and a join
 * without status check.
 */
module LegacyMatches {
  import opened Wrappers
  import opened Entities
  import opened Clients
  import opened Matches
  import MatchAdmission

  /**
   * MATCH_ACTIVE_STATUS_CONDITION of the older service. It shares only
   * Live with the current service's set: a match waiting for minimum
   * players counts here, one waiting for its lobby does not.
   */
  predicate IsActiveLegacy(s: MatchStatus)
    ensures IsActiveLegacy(s) && IsActive(s) <==> s == MatchStatus.Live
  {
    s == MatchStatus.WaitingForMinimumPlayers || s == MatchStatus.Live
  }

  /** The older match service over the same match documents. */
  class MatchesService {
    var matches: seq<Match>

    constructor (matches: seq<Match>)
      ensures this.matches == matches
    {
      this.matches := matches;
    }

    /**
     * createRequest: game access, region access, then the quota over the
     * client's matches waiting for minimum players or live; an admitted
     * request stores a match waiting for minimum players, with the
     * required player count kept under its preferences.
     */
    method CreateRequest(c: Client, request: MatchRequest, id: string, now: int) returns (r: Result<Match, Error>)
      modifies this
      ensures var refusal := MatchAdmission.Admission(c, request.game, request.region, old(CountActive(matches, c.id, IsActiveLegacy)));
        (r.Err? <==> refusal.Some?) && (r.Err? ==> r.error == refusal.value && matches == old(matches))
      ensures r.Ok? ==> fresh(r.value) && matches == old(matches) + [r.value]
      ensures r.Ok? ==> var m := r.value;
        m.id == id && m.createdAt == now && m.client == c.id && m.game == request.game && m.region == request.region
        && m.callbackUrl == request.callbackUrl && m.status == MatchStatus.WaitingForMinimumPlayers
        && m.players == request.players.GetOr([]) && m.requiredPlayers == None
        && m.preferences == Preferences(request.requiredPlayers, false) && m.server == None
      ensures r.Ok? ==> CountActive(matches, c.id, IsActiveLegacy) == old(CountActive(matches, c.id, IsActiveLegacy)) + 1
    {
      var active := CountActive(matches, c.id, IsActiveLegacy);
      var refusal := MatchAdmission.Admission(c, request.game, request.region, active);
      if refusal.Some? {
        return Err(refusal.value);
      }
      var m := new Match(id, now, c.id, request.game, request.region, request.callbackUrl, None,
                         Preferences(request.requiredPlayers, false), MatchStatus.WaitingForMinimumPlayers,
                         request.players.GetOr([]));
      matches := matches + [m];
      CountActiveAppend(old(matches), m, c.id, IsActiveLegacy);
      r := Ok(m);
    }

    /** playerJoin: the player is appended whatever the match's status; only a missing match is refused. */
    method PlayerJoin(id: string, player: Player) returns (r: Result<Match, Error>)
      modifies matches
      ensures IndexOfId(matches, id).None? <==> r == Err(MatchNotFound)
      ensures IndexOfId(matches, id).Some? ==> var m := matches[IndexOfId(matches, id).value];
        r == Ok(m) && m.players == old(m.players) + [player]
        && forall i :: 0 <= i < |matches| && matches[i] != m ==> matches[i].players == old(matches[i].players)
      ensures r.Err? ==> forall i :: 0 <= i < |matches| ==> matches[i].players == old(matches[i].players)
      ensures forall i :: 0 <= i < |matches| ==> matches[i].status == old(matches[i].status) && matches[i].server == old(matches[i].server)
    {
      var k := IndexOfId(matches, id);
      if k.None? {
        return Err(MatchNotFound);
      }
      var m := matches[k.value];
      m.players := m.players + [player];
      r := Ok(m);
    }
  }
}
