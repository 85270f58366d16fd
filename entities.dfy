/**
 * The values shared by the lobby and match services: players, role
 * requirements, the status enumerations and the role tags.
 *
 * The status and role enumerations hold every value the services refer to,
 * including the ones the enumeration files do not declare (lobby CLOSED and
 * EXPIRED, match WAITING and CLOSED, the class roles such as "scout").
 */
module Entities {
  import opened Wrappers
  import opened Seqs

  type Role = string

  // Role tags (lobby-player-role.enum.ts and the class roles used by the captain handler).
  const PLAYER: Role := "player"
  const CAPTAIN: Role := "captain"
  const CREATOR: Role := "creator"
  const TEAM_A: Role := "team_a"
  const TEAM_B: Role := "team_b"
  const CAN_CAPTAIN: Role := "can_captain"
  const SCOUT: Role := "scout"
  const SOLDIER: Role := "soldier"
  const PYRO: Role := "pyro"
  const DEMOMAN: Role := "demoman"
  const HEAVY: Role := "heavy"
  const ENGINEER: Role := "engineer"
  const SNIPER: Role := "sniper"
  const MEDIC: Role := "medic"
  const SPY: Role := "spy"
  const RED_SCOUT: Role := "red-scout"
  const RED_SOLDIER: Role := "red-soldier"
  const RED_PYRO: Role := "red-pyro"
  const RED_DEMOMAN: Role := "red-demoman"
  const RED_HEAVY: Role := "red-heavy"
  const RED_ENGINEER: Role := "red-engineer"
  const RED_SNIPER: Role := "red-sniper"
  const RED_MEDIC: Role := "red-medic"
  const RED_SPY: Role := "red-spy"
  const BLU_SCOUT: Role := "blu-scout"
  const BLU_SOLDIER: Role := "blu-soldier"
  const BLU_PYRO: Role := "blu-pyro"
  const BLU_DEMOMAN: Role := "blu-demoman"
  const BLU_HEAVY: Role := "blu-heavy"
  const BLU_ENGINEER: Role := "blu-engineer"
  const BLU_SNIPER: Role := "blu-sniper"
  const BLU_MEDIC: Role := "blu-medic"
  const BLU_SPY: Role := "blu-spy"

  /**
   * A queued or match player. `discord` and `steam` are optional identities;
   * `roles` is the ordered list of role tags (duplicates allowed).
   */
  datatype Player = Player(name: string, discord: Option<string>, steam: Option<string>, roles: seq<Role>)

  /** A role requirement of a lobby; an absent overfill flag is `false`. */
  datatype RoleRequirement = RoleRequirement(name: Role, count: int, overfill: bool)

  /** Lobby status. `NoStatus` is a lobby whose status field was never assigned. */
  datatype LobbyStatus =
    | Unknown
    | WaitingForRequiredPlayers
    | Distributing
    | Distributed
    | Closed
    | Expired
    | Live
    | NoStatus

  /**
   * Match status: the values of the current match service, the values the
   * code uses without declaring them (Waiting, Closed), and the older
   * service's WaitingForMinimumPlayers.
   */
  datatype MatchStatus =
    | Unknown
    | WaitingForMinimumPlayers
    | WaitingForLobby
    | LobbyReady
    | CreatingServer
    | WaitingForPlayers
    | WaitingToStart
    | Live
    | Finished
    | Failed
    | Waiting
    | Closed

  /** Status reported by the game-server fleet manager in its callback. */
  datatype ServerStatus = Init | Allocating | Waiting | Idle | Running | Closing | Deallocating | Closed | Failed

  /** Team distribution strategy of a lobby. */
  datatype DistributionType = Random | TeamRoleBased | CaptainBased

  /** How a player is addressed in the queue-editing endpoints. */
  datatype IdKind = Discord | Steam | Name

  /** The exceptions the services raise, one per distinct check. */
  datatype Error =
    | AlreadyCreatedLobby     // BadRequest: the user created an active lobby
    | AlreadyQueued           // BadRequest: the user is queued in an active lobby
    | CannotJoin              // BadRequest: the lobby or match is not accepting players
    | CannotLeave             // BadRequest: the lobby is not in a status that allows leaving
    | CannotEditRoles         // BadRequest: the lobby is not in a status that allows role edits
    | LobbyNotFound           // NotFound
    | PlayerNotFound          // NotFound: no queued player matches the identifier
    | MatchNotFound           // NotFound
    | NoGameAccess            // Forbidden
    | NoRegionAccess          // Forbidden
    | LimitReached            // HTTP 429
    | NoProvider              // Error: no provider in the match's region

  /** The predicate `player.roles.includes(role)`, as a value for filters. */
  function Holds(role: Role): Player -> bool {
    (p: Player) => role in p.roles
  }

  /** Number of players whose roles include `role` (a player counts once, however often it holds the tag). */
  function Holders(players: seq<Player>, role: Role): nat {
    |Filter(players, Holds(role))|
  }

  /** The predicate `p.discord === discord`, as a value for searches. */
  function SameDiscord(discord: Option<string>): Player -> bool {
    (p: Player) => p.discord == discord
  }
}
