/**
 * The decisions of the lobby service that depend only on values: the active
 * status set, how a queued player is selected by discord id, steam id or name,
 * the queue and role filters, and the role-requirement check.
 */
module LobbyRules {
  import opened Wrappers
  import opened Entities
  import opened Seqs

  /** Expiry used when a creation request gives none (or zero). */
  const DEFAULT_EXPIRY_TIME: int := 1800

  /**
   * LOBBY_ACTIVE_STATUS_CONDITION: the statuses admission and `close` treat
   * as active. A closed or expired lobby is not active, so it no longer
   * blocks its creator or its queued players.
   */
  predicate IsActive(s: LobbyStatus)
    ensures IsActive(s) ==> s != LobbyStatus.Closed && s != Expired && s != NoStatus
  {
    s == WaitingForRequiredPlayers || s == Distributing || s == Distributed
  }

  /** The lobby's expiry time in seconds: an absent or zero value falls back to the default of 1800. */
  function ExpiryOrDefault(expiry: Option<int>): (e: int)
    ensures expiry.Some? && expiry.value != 0 ==> e == expiry.value
    ensures expiry.None? || expiry.value == 0 ==> e == DEFAULT_EXPIRY_TIME
    ensures e != 0
  {
    if expiry.None? || expiry.value == 0 then DEFAULT_EXPIRY_TIME else expiry.value
  }

  // ---------------------------------------------------------------------------
  // Selecting a queued player

  /** The selector of getPlayer, removePlayer, addPlayerRole and removePlayerRole. */
  predicate IdMatches(p: Player, kind: IdKind, pid: string) {
    match kind
    case Discord => p.discord == Some(pid)
    case Steam => p.steam == Some(pid)
    case Name => p.name == pid
  }

  function Selected(kind: IdKind, pid: string): Player -> bool {
    (p: Player) => IdMatches(p, kind, pid)
  }

  function NotSelected(kind: IdKind, pid: string): Player -> bool {
    (p: Player) => !IdMatches(p, kind, pid)
  }

  /** getPlayer: the first entry of the filtered queue, i.e. the first selected player, if any. */
  function SelectPlayer(players: seq<Player>, kind: IdKind, pid: string): (r: Option<Player>)
    ensures r.None? <==> forall k :: 0 <= k < |players| ==> !IdMatches(players[k], kind, pid)
    ensures r.Some? ==> exists k :: 0 <= k < |players| && players[k] == r.value && IdMatches(players[k], kind, pid)
                                 && forall j :: 0 <= j < k ==> !IdMatches(players[j], kind, pid)
  {
    var hits := Filter(players, Selected(kind, pid));
    FilterHeadIsFirst(players, Selected(kind, pid));
    if hits == [] then None else Some(hits[0])
  }

  /** removePlayer: the queue without every selected entry. */
  function WithoutPlayer(players: seq<Player>, kind: IdKind, pid: string): (r: seq<Player>)
    ensures forall i :: 0 <= i < |r| ==> r[i] in players && !IdMatches(r[i], kind, pid)
    ensures forall i :: 0 <= i < |players| && !IdMatches(players[i], kind, pid) ==> players[i] in r
  {
    Filter(players, NotSelected(kind, pid))
  }

  /**
   * removePlayer deletes every selected entry, keeps every other entry with
   * its multiplicity, and keeps their order (it commutes with concatenation).
   */
  lemma WithoutPlayerSpec(players: seq<Player>, kind: IdKind, pid: string, tail: seq<Player>)
    ensures forall i :: 0 <= i < |WithoutPlayer(players, kind, pid)| ==> !IdMatches(WithoutPlayer(players, kind, pid)[i], kind, pid)
    ensures forall p :: !IdMatches(p, kind, pid) ==> multiset(WithoutPlayer(players, kind, pid))[p] == multiset(players)[p]
    ensures WithoutPlayer(players + tail, kind, pid) == WithoutPlayer(players, kind, pid) + WithoutPlayer(tail, kind, pid)
  {
    forall p | !IdMatches(p, kind, pid)
      ensures multiset(WithoutPlayer(players, kind, pid))[p] == multiset(players)[p]
    {
      FilterCount(players, NotSelected(kind, pid), p);
    }
    FilterConcat(players, tail, NotSelected(kind, pid));
  }

  /** addPlayerRole: the role is pushed onto the roles of entry `k`. */
  function WithRoleAdded(players: seq<Player>, k: nat, role: Role): (r: seq<Player>)
    requires k < |players|
    ensures |r| == |players|
    ensures r[k].roles == players[k].roles + [role]
    ensures r[k].name == players[k].name && r[k].discord == players[k].discord && r[k].steam == players[k].steam
    ensures forall j :: 0 <= j < |players| && j != k ==> r[j] == players[j]
  {
    players[k := players[k].(roles := players[k].roles + [role])]
  }

  function Differs(role: Role): Role -> bool {
    (r: Role) => r != role
  }

  /** removePlayerRole: the player's roles without any copy of `role`. */
  function WithoutRole(roles: seq<Role>, role: Role): (r: seq<Role>)
    ensures role !in r
    ensures forall i :: 0 <= i < |r| ==> r[i] in roles
    ensures forall i :: 0 <= i < |roles| && roles[i] != role ==> roles[i] in r
  {
    Filter(roles, Differs(role))
  }

  /** Every occurrence of the role goes, every other role keeps its multiplicity and order, and a second removal changes nothing. */
  lemma WithoutRoleSpec(roles: seq<Role>, role: Role)
    ensures role !in WithoutRole(roles, role)
    ensures forall x :: x != role ==> multiset(WithoutRole(roles, role))[x] == multiset(roles)[x]
    ensures WithoutRole(WithoutRole(roles, role), role) == WithoutRole(roles, role)
  {
    forall x | x != role
      ensures multiset(WithoutRole(roles, role))[x] == multiset(roles)[x]
    {
      FilterCount(roles, Differs(role), x);
    }
    FilterKeepsAll(WithoutRole(roles, role), Differs(role));
  }

  /** Replaces the roles of entry `k` and keeps everything else. */
  function WithRoles(players: seq<Player>, k: nat, roles: seq<Role>): seq<Player>
    requires k < |players|
  {
    players[k := players[k].(roles := roles)]
  }

  // ---------------------------------------------------------------------------
  // The requirement check (checkForRequiredPlayers)

  /** The count map's entry for a role, with an absent key read as 0. */
  function Lookup(count: map<Role, nat>, r: Role): nat {
    if r in count then count[r] else 0
  }

  /** One player's pass of the count: each of its tags raises the tag's entry by one, creating it at 1. */
  function AddRoles(count: map<Role, nat>, roles: seq<Role>): map<Role, nat>
    decreases |roles|
  {
    if roles == [] then count
    else
      var r := roles[0];
      var next := if Lookup(count, r) != 0 then count[r := count[r] + 1] else count[r := 1];
      AddRoles(next, roles[1..])
  }

  /** The `count` map built over all queued players. */
  function CountRoles(players: seq<Player>): map<Role, nat> {
    if players == [] then map[]
    else AddRoles(CountRoles(players[..|players| - 1]), players[|players| - 1].roles)
  }

  /** All role tags of the queue, player after player. */
  function AllRoles(players: seq<Player>): seq<Role> {
    if players == [] then [] else AllRoles(players[..|players| - 1]) + players[|players| - 1].roles
  }

  /** Reference definition of a role's tally: its occurrences among all role tags, a duplicated tag counting twice. */
  function Tally(players: seq<Player>, r: Role): nat {
    multiset(AllRoles(players))[r]
  }

  /** Counting one player's tags adds each tag's occurrences to the map's entry. */
  lemma {:induction false} AddRolesCounts(count: map<Role, nat>, roles: seq<Role>, r: Role)
    ensures Lookup(AddRoles(count, roles), r) == Lookup(count, r) + multiset(roles)[r]
    decreases |roles|
  {
    if roles != [] {
      var x := roles[0];
      var next := if Lookup(count, x) != 0 then count[x := count[x] + 1] else count[x := 1];
      AddRolesCounts(next, roles[1..], r);
      assert roles == [x] + roles[1..];
    }
  }

  /** The service's count map agrees with the reference tally on every role. */
  lemma {:induction false} CountRolesIsTally(players: seq<Player>, r: Role)
    ensures Lookup(CountRoles(players), r) == Tally(players, r)
    decreases |players|
  {
    if players != [] {
      var n := |players| - 1;
      CountRolesIsTally(players[..n], r);
      AddRolesCounts(CountRoles(players[..n]), players[n].roles, r);
    }
  }

  /** A requirement is met by a tally: at least one holder, at least `count`, and at most `count` unless overfill is allowed. */
  predicate RequirementMet(tally: nat, q: RoleRequirement) {
    1 <= tally && q.count <= tally && (q.overfill || tally <= q.count)
  }

  /** The unfilled filter: a requirement whose tag has no (or a zero) count, or fewer than its count. */
  function UnfilledIn(count: map<Role, nat>): RoleRequirement -> bool {
    (q: RoleRequirement) => if Lookup(count, q.name) != 0 then Lookup(count, q.name) < q.count else true
  }

  /** The overfilled filter: more holders than the count without overfill; an absent count exceeds nothing. */
  function OverfilledIn(count: map<Role, nat>): RoleRequirement -> bool {
    (q: RoleRequirement) => q.name in count && count[q.name] > q.count && !q.overfill
  }

  /**
   * checkForRequiredPlayers: no requirement is unfilled and none is
   * overfilled. It holds exactly when every requirement is met by its tally.
   */
  function CheckForRequiredPlayers(players: seq<Player>, requirements: seq<RoleRequirement>): (met: bool)
    ensures met <==> forall i :: 0 <= i < |requirements| ==> RequirementMet(Tally(players, requirements[i].name), requirements[i])
  {
    var count := CountRoles(players);
    var unfilled := Filter(requirements, UnfilledIn(count));
    var overfilled := Filter(requirements, OverfilledIn(count));
    NoUnfilledNoOverfilled(players, requirements);
    |unfilled| == 0 && |overfilled| == 0
  }

  /** One requirement is met by its tally exactly when neither filter of the service picks it. */
  lemma MetIffNeitherFilter(count: map<Role, nat>, tally: nat, q: RoleRequirement)
    requires Lookup(count, q.name) == tally
    ensures RequirementMet(tally, q) <==> !UnfilledIn(count)(q) && !OverfilledIn(count)(q)
  {
  }

  /** Both filters of the service come out empty exactly when every requirement is met by its tally. */
  lemma NoUnfilledNoOverfilled(players: seq<Player>, requirements: seq<RoleRequirement>)
    ensures var count := CountRoles(players);
      (|Filter(requirements, UnfilledIn(count))| == 0 && |Filter(requirements, OverfilledIn(count))| == 0)
      <==> forall i :: 0 <= i < |requirements| ==> RequirementMet(Tally(players, requirements[i].name), requirements[i])
  {
    var count := CountRoles(players);
    FilterEmpty(requirements, UnfilledIn(count));
    FilterEmpty(requirements, OverfilledIn(count));
    forall i | 0 <= i < |requirements|
      ensures RequirementMet(Tally(players, requirements[i].name), requirements[i])
          <==> !UnfilledIn(count)(requirements[i]) && !OverfilledIn(count)(requirements[i])
    {
      CountRolesIsTally(players, requirements[i].name);
      MetIffNeitherFilter(count, Tally(players, requirements[i].name), requirements[i]);
    }
  }

  /** A requirement of count 0 that nobody holds still counts as unfilled. */
  lemma {:induction false} UnheldRequirementUnmet(players: seq<Player>, requirements: seq<RoleRequirement>, i: nat)
    requires i < |requirements|
    requires forall k :: 0 <= k < |players| ==> requirements[i].name !in players[k].roles
    ensures !CheckForRequiredPlayers(players, requirements)
  {
    NoHolderNoTally(players, requirements[i].name);
  }

  /** A tag nobody holds has tally 0. */
  lemma {:induction false} NoHolderNoTally(players: seq<Player>, r: Role)
    requires forall k :: 0 <= k < |players| ==> r !in players[k].roles
    ensures Tally(players, r) == 0
    decreases |players|
  {
    if players != [] {
      var n := |players| - 1;
      NoHolderNoTally(players[..n], r);
      assert r !in players[n].roles;
      assert multiset(players[n].roles)[r] == 0;
    }
  }

  /** Appending a player adds its own occurrences of each tag to the tally. */
  lemma TallyAppend(players: seq<Player>, p: Player, r: Role)
    ensures Tally(players + [p], r) == Tally(players, r) + multiset(p.roles)[r]
  {
    assert (players + [p])[..|players|] == players;
  }
}
