/**
 * The team/role-based distribution handler (team-role-based.class.ts):
 * `verify`, the NAND admission rule of `isPlayerAllowed` and the in-place
 * `addOrUpdatePlayer`.
 */
module TeamRoleBased {
  import opened Wrappers
  import opened Entities
  import opened Seqs
  import opened LobbyModel
  import LobbyRules

  /** The key under which `verify` records whether the teams are full. */
  const TEAMS: string := "teams"

  function OnATeam(): Player -> bool {
    (p: Player) => TEAM_A in p.roles || TEAM_B in p.roles
  }

  /** Number of queued players carrying `team_a` or `team_b`. */
  function TeamMembers(players: seq<Player>): nat {
    |Filter(players, OnATeam())|
  }

  /** A JavaScript lookup `m[key]` used as a condition: an absent key is falsy. */
  predicate Flag(m: map<string, bool>, key: string) {
    key in m && m[key]
  }

  /** Index of the last requirement named `name`, if any. */
  function LastNamed(requirements: seq<RoleRequirement>, name: string): (r: Option<nat>)
    ensures r.Some? ==> r.value < |requirements| && requirements[r.value].name == name
    ensures r.Some? ==> forall j :: r.value < j < |requirements| ==> requirements[j].name != name
    ensures r.None? <==> forall j :: 0 <= j < |requirements| ==> requirements[j].name != name
  {
    if requirements == [] then None
    else if requirements[|requirements| - 1].name == name then Some(|requirements| - 1)
    else LastNamed(requirements[..|requirements| - 1], name)
  }

  /**
   * The requirement entries of `verify`'s result object: one key per
   * requirement name; for a name used twice, the later requirement's entry
   * overwrites the earlier one.
   */
  function RequirementFlags(players: seq<Player>, requirements: seq<RoleRequirement>): (m: map<string, bool>)
    ensures forall name :: name in m <==> LastNamed(requirements, name).Some?
    ensures forall name :: name in m ==>
      m[name] == (Holders(players, name) >= requirements[LastNamed(requirements, name).value].count)
  {
    if requirements == [] then map[]
    else
      var q := requirements[|requirements| - 1];
      var met := Holders(players, q.name);
      RequirementFlags(players, requirements[..|requirements| - 1])[q.name := met >= q.count || (met >= q.count && q.overfill)]
  }

  /**
   * verify: for each requirement whether enough players hold its role (the
   * last requirement of a name decides), and under "teams" whether the
   * number of players on a team equals maxPlayers exactly (never when
   * maxPlayers is absent).
   */
  function Verify(players: seq<Player>, requirements: seq<RoleRequirement>, maxPlayers: Option<int>): (m: map<string, bool>)
    ensures TEAMS in m && m[TEAMS] == (maxPlayers == Some(TeamMembers(players)))
    ensures forall name :: name != TEAMS ==> (name in m <==> LastNamed(requirements, name).Some?)
    ensures forall name :: name in m && name != TEAMS ==>
      m[name] == (Holders(players, name) >= requirements[LastNamed(requirements, name).value].count)
  {
    RequirementFlags(players, requirements)[TEAMS := maxPlayers == Some(TeamMembers(players))]
  }

  /** The requirements with every overfill flag set to `overfill`. */
  function WithOverfill(requirements: seq<RoleRequirement>, overfill: bool): (r: seq<RoleRequirement>)
    ensures |r| == |requirements|
    ensures forall i :: 0 <= i < |r| ==> r[i] == requirements[i].(overfill := overfill)
  {
    seq(|requirements|, i requires 0 <= i < |requirements| => requirements[i].(overfill := overfill))
  }

  /** `verify` reads only the names and counts of the requirements. */
  lemma {:induction false} NamesAndCountsDecide(players: seq<Player>, r1: seq<RoleRequirement>, r2: seq<RoleRequirement>)
    requires |r1| == |r2|
    requires forall i :: 0 <= i < |r1| ==> r1[i].name == r2[i].name && r1[i].count == r2[i].count
    ensures RequirementFlags(players, r1) == RequirementFlags(players, r2)
    decreases |r1|
  {
    if r1 != [] {
      var n := |r1| - 1;
      NamesAndCountsDecide(players, r1[..n], r2[..n]);
    }
  }

  /** The overfill flag makes no difference to `verify`. */
  lemma OverfillIrrelevant(players: seq<Player>, requirements: seq<RoleRequirement>, overfill: bool)
    ensures RequirementFlags(players, WithOverfill(requirements, overfill)) == RequirementFlags(players, requirements)
  {
    NamesAndCountsDecide(players, WithOverfill(requirements, overfill), requirements);
  }

  /** A player counts once as a holder but as often as it holds the tag in the requirement tally of the lobby service. */
  lemma {:induction false} HoldersAtMostTally(players: seq<Player>, role: Role)
    ensures Holders(players, role) <= LobbyRules.Tally(players, role)
    decreases |players|
  {
    if players != [] {
      var n := |players| - 1;
      HoldersAtMostTally(players[..n], role);
      assert players == players[..n] + [players[n]];
      FilterConcat(players[..n], [players[n]], Holds(role));
      if role in players[n].roles {
        assert multiset(players[n].roles)[role] >= 1;
      }
    }
  }

  /**
   * The queue as addOrUpdatePlayer leaves it (and as isPlayerAllowed's
   * copy sees it): the first entry with the same discord id gets a copy of
   * the requested roles, otherwise the player is appended.
   */
  function Placed(players: seq<Player>, player: Player): (r: seq<Player>)
    ensures FindFirst(players, SameDiscord(player.discord)).Some? ==>
      var k := FindFirst(players, SameDiscord(player.discord)).value;
      |r| == |players| && r[k].roles == player.roles
      && r[k].name == players[k].name && r[k].discord == players[k].discord && r[k].steam == players[k].steam
      && forall j :: 0 <= j < |players| && j != k ==> r[j] == players[j]
    ensures FindFirst(players, SameDiscord(player.discord)).None? ==> r == players + [player]
  {
    match FindFirst(players, SameDiscord(player.discord))
    case Some(k) => LobbyRules.WithRoles(players, k, player.roles)
    case None => players + [player]
  }

  /**
   * The key isPlayerAllowed looks up: the last submitted role; for an empty
   * list the lookup key is the string "undefined".
   */
  function WantedKey(roles: seq<Role>): string {
    if |roles| == 0 then "undefined" else roles[|roles| - 1]
  }

  /** The queued player already holds the wanted role; with no submitted role there is nothing to hold. */
  predicate HoldsWanted(queued: Player, roles: seq<Role>) {
    |roles| > 0 && roles[|roles| - 1] in queued.roles
  }

  /**
   * isPlayerAllowed as a decision on the lobby's value. An already queued
   * player (same discord id) is refused when it already holds the wanted
   * role, and otherwise refused only when the wanted role is met both
   * before and after the change. A new player is refused when
   * (wanted role met and teams full) holds before or after it is added; so
   * a new player is never refused unless its wanted role is filled and the
   * teams are full, before or after it joins.
   */
  predicate IsPlayerAllowed(player: Player, players: seq<Player>, requirements: seq<RoleRequirement>, maxPlayers: Option<int>)
    ensures FindFirst(players, SameDiscord(player.discord)).None? && !IsPlayerAllowed(player, players, requirements, maxPlayers) ==>
      (Flag(Verify(players, requirements, maxPlayers), TEAMS) || Flag(Verify(players + [player], requirements, maxPlayers), TEAMS))
      && (Flag(Verify(players, requirements, maxPlayers), WantedKey(player.roles))
          || Flag(Verify(players + [player], requirements, maxPlayers), WantedKey(player.roles)))
  {
    var wanted := WantedKey(player.roles);
    var before := Verify(players, requirements, maxPlayers);
    var after := Verify(Placed(players, player), requirements, maxPlayers);
    match FindFirst(players, SameDiscord(player.discord))
    case Some(k) =>
      if HoldsWanted(players[k], player.roles) then false
      else !(Flag(before, wanted) && Flag(after, wanted))
    case None =>
      !(Flag(before, wanted) && Flag(before, TEAMS)) && !(Flag(after, wanted) && Flag(after, TEAMS))
  }

  /** An already queued player that already holds the wanted role is refused. */
  lemma QueuedHolderRefused(player: Player, players: seq<Player>, requirements: seq<RoleRequirement>, maxPlayers: Option<int>, k: nat)
    requires k < |players| && players[k].discord == player.discord
    requires forall j :: 0 <= j < k ==> players[j].discord != player.discord
    requires |player.roles| > 0 && player.roles[|player.roles| - 1] in players[k].roles
    ensures !IsPlayerAllowed(player, players, requirements, maxPlayers)
  {
    assert FindFirst(players, SameDiscord(player.discord)) == Some(k);
  }

  /** A queued player changing roles is refused exactly when the wanted role is met before and after the change. */
  lemma RoleChangeRule(player: Player, players: seq<Player>, requirements: seq<RoleRequirement>, maxPlayers: Option<int>, k: nat)
    requires k < |players| && players[k].discord == player.discord
    requires forall j :: 0 <= j < k ==> players[j].discord != player.discord
    requires !HoldsWanted(players[k], player.roles)
    ensures var wanted := WantedKey(player.roles);
      (!IsPlayerAllowed(player, players, requirements, maxPlayers)
       <==> (Flag(Verify(players, requirements, maxPlayers), wanted)
             && Flag(Verify(LobbyRules.WithRoles(players, k, player.roles), requirements, maxPlayers), wanted)))
  {
    assert FindFirst(players, SameDiscord(player.discord)) == Some(k);
  }

  /** A new player is refused exactly when (wanted met and teams full) held before, or holds once it is appended. */
  lemma NewPlayerRule(player: Player, players: seq<Player>, requirements: seq<RoleRequirement>, maxPlayers: Option<int>)
    requires forall j :: 0 <= j < |players| ==> players[j].discord != player.discord
    ensures var wanted := WantedKey(player.roles);
      var before := Verify(players, requirements, maxPlayers);
      var after := Verify(players + [player], requirements, maxPlayers);
      (!IsPlayerAllowed(player, players, requirements, maxPlayers)
       <==> (Flag(before, wanted) && Flag(before, TEAMS)) || (Flag(after, wanted) && Flag(after, TEAMS)))
  {
  }

  /** A wanted role that names no requirement (and is not "teams") is allowed, unless the queued player already holds it. */
  lemma UnrequiredRoleAllowed(player: Player, players: seq<Player>, requirements: seq<RoleRequirement>, maxPlayers: Option<int>)
    requires WantedKey(player.roles) != TEAMS
    requires forall i :: 0 <= i < |requirements| ==> requirements[i].name != WantedKey(player.roles)
    requires FindFirst(players, SameDiscord(player.discord)).Some? ==>
      !HoldsWanted(players[FindFirst(players, SameDiscord(player.discord)).value], player.roles)
    ensures IsPlayerAllowed(player, players, requirements, maxPlayers)
  {
    var wanted := WantedKey(player.roles);
    assert !Flag(Verify(players, requirements, maxPlayers), wanted);
  }

  /** While nobody carries a team tag, the teams entry is false for any positive maximum. */
  lemma TeamsOpenWithoutTags(players: seq<Player>, requirements: seq<RoleRequirement>, max: int)
    requires max != 0
    requires forall k :: 0 <= k < |players| ==> TEAM_A !in players[k].roles && TEAM_B !in players[k].roles
    ensures !Flag(Verify(players, requirements, Some(max)), TEAMS)
  {
    FilterDropsAll(players, OnATeam());
  }

  /** A new player is always allowed while the teams entry is false before and after it joins, whatever its role. */
  lemma NewPlayerAllowedWhileTeamsOpen(player: Player, players: seq<Player>, requirements: seq<RoleRequirement>, maxPlayers: Option<int>)
    requires FindFirst(players, SameDiscord(player.discord)).None?
    requires !Flag(Verify(players, requirements, maxPlayers), TEAMS)
    requires !Flag(Verify(players + [player], requirements, maxPlayers), TEAMS)
    ensures IsPlayerAllowed(player, players, requirements, maxPlayers)
  {
  }

  /** Players who all hold "player" fill a requirement for that many "player"s. */
  lemma AllPlayersFill(players: seq<Player>)
    requires forall k :: 0 <= k < |players| ==> players[k].roles == [PLAYER]
    ensures Flag(Verify(players, [RoleRequirement(PLAYER, |players|, false)], Some(|players|)), PLAYER)
  {
    FilterKeepsAll(players, Holds(PLAYER));
  }

  /**
   * A full "player" requirement does not stop a new "player": with every
   * queued entry holding only "player" (so no team tags yet), the teams
   * entry is false before and after, and the NAND rule admits the newcomer.
   */
  lemma FilledRoleStillAdmitsWhileTeamsOpen(players: seq<Player>, e: Player)
    requires |players| > 0 && e.roles == [PLAYER]
    requires forall k :: 0 <= k < |players| ==> players[k].roles == [PLAYER] && players[k].discord != e.discord
    ensures Flag(Verify(players, [RoleRequirement(PLAYER, |players|, false)], Some(|players|)), PLAYER)
    ensures IsPlayerAllowed(e, players, [RoleRequirement(PLAYER, |players|, false)], Some(|players|))
  {
    var requirements := [RoleRequirement(PLAYER, |players|, false)];
    AllPlayersFill(players);
    assert TEAM_A !in [PLAYER] && TEAM_B !in [PLAYER];
    TeamsOpenWithoutTags(players, requirements, |players|);
    forall k | 0 <= k < |players + [e]|
      ensures TEAM_A !in (players + [e])[k].roles && TEAM_B !in (players + [e])[k].roles
    {
      if k < |players| {
        assert (players + [e])[k] == players[k];
      }
    }
    TeamsOpenWithoutTags(players + [e], requirements, |players|);
    NewPlayerAllowedWhileTeamsOpen(e, players, requirements, Some(|players|));
  }

  /**
   * addOrUpdatePlayer: the queue becomes `Placed(queue, player)`, i.e. the
   * existing entry's roles are replaced (length unchanged) or the player is
   * appended. The saved lobby is returned.
   */
  method AddOrUpdatePlayer(player: Player, lobby: Lobby) returns (saved: Lobby)
    modifies lobby
    ensures saved == lobby
    ensures lobby.queuedPlayers == Placed(old(lobby.queuedPlayers), player)
    ensures lobby.status == old(lobby.status)
  {
    var found := FindFirst(lobby.queuedPlayers, SameDiscord(player.discord));
    if found.Some? {
      lobby.queuedPlayers := LobbyRules.WithRoles(lobby.queuedPlayers, found.value, player.roles);
    } else {
      lobby.queuedPlayers := lobby.queuedPlayers + [player];
    }
    saved := lobby;
  }
}
