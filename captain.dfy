/**
 * The captain-based distribution handler (captain.class.ts): stripping or
 * keeping class roles, and the in-place `updateOrAddPlayer`.
 */
module Captain {
  import opened Wrappers
  import opened Entities
  import opened Seqs
  import opened LobbyModel
  import LobbyRules

  /** The roles `cleanClassRoles` treats as class roles, in the handler's order (can_captain included). */
  const CLASS_ROLES: seq<Role> := [
    CAN_CAPTAIN, SCOUT, SOLDIER, PYRO, DEMOMAN, HEAVY, ENGINEER, MEDIC, SNIPER, SPY,
    RED_SCOUT, RED_SOLDIER, RED_PYRO, RED_DEMOMAN, RED_HEAVY, RED_ENGINEER, RED_SNIPER, RED_MEDIC, RED_SPY,
    BLU_SCOUT, BLU_SOLDIER, BLU_PYRO, BLU_DEMOMAN, BLU_HEAVY, BLU_ENGINEER, BLU_SNIPER, BLU_MEDIC, BLU_SPY
  ]

  /** The filter predicate: class roles when `inverse`, the other roles otherwise. */
  function ClassFilter(inverse: bool): Role -> bool {
    (r: Role) => if inverse then r in CLASS_ROLES else r !in CLASS_ROLES
  }

  /**
   * cleanClassRoles: the roles with the class roles removed, or with only
   * the class roles kept when `inverse`; order and repeats are preserved.
   */
  function CleanClassRoles(roles: seq<Role>, inverse: bool := false): (r: seq<Role>)
    ensures forall i :: 0 <= i < |r| ==> r[i] in roles && (r[i] in CLASS_ROLES <==> inverse)
    ensures forall i :: 0 <= i < |roles| && (roles[i] in CLASS_ROLES <==> inverse) ==> roles[i] in r
    ensures forall x :: multiset(r)[x] == if (x in CLASS_ROLES <==> inverse) then multiset(roles)[x] else 0
  {
    var r := Filter(roles, ClassFilter(inverse));
    forall x ensures multiset(r)[x] == if (x in CLASS_ROLES <==> inverse) then multiset(roles)[x] else 0 {
      FilterCount(roles, ClassFilter(inverse), x);
    }
    r
  }

  /** Cleaning works element by element: it distributes over concatenation and keeps or drops each single role. */
  lemma CleanConcat(a: seq<Role>, b: seq<Role>, inverse: bool)
    ensures CleanClassRoles(a + b, inverse) == CleanClassRoles(a, inverse) + CleanClassRoles(b, inverse)
    ensures forall x :: CleanClassRoles([x], inverse) == if (x in CLASS_ROLES <==> inverse) then [x] else []
  {
    FilterConcat(a, b, ClassFilter(inverse));
    forall x ensures CleanClassRoles([x], inverse) == if (x in CLASS_ROLES <==> inverse) then [x] else [] {
      assert [x][1..] == [];
    }
  }

  /** The class roles and the other roles of a list together are the list, up to order. */
  lemma CleanPartition(roles: seq<Role>)
    ensures multiset(CleanClassRoles(roles, true)) + multiset(CleanClassRoles(roles, false)) == multiset(roles)
  {
    var a, b := CleanClassRoles(roles, true), CleanClassRoles(roles, false);
    assert forall x :: (multiset(a) + multiset(b))[x] == multiset(roles)[x];
  }

  /** Cleaning twice is cleaning once. */
  lemma CleanIdempotent(roles: seq<Role>, inverse: bool)
    ensures CleanClassRoles(CleanClassRoles(roles, inverse), inverse) == CleanClassRoles(roles, inverse)
    ensures CleanClassRoles(CleanClassRoles(roles, inverse), !inverse) == []
  {
    var r := CleanClassRoles(roles, inverse);
    FilterKeepsAll(r, ClassFilter(inverse));
    FilterDropsAll(r, ClassFilter(!inverse));
  }

  /** can_captain counts as a class role: the default cleaning removes it. */
  lemma CanCaptainStripped(roles: seq<Role>)
    ensures CAN_CAPTAIN !in CleanClassRoles(roles)
  {
  }

  /**
   * The roles of a queued player after a repeat request: the requested
   * class roles first, then the player's existing non-class roles.
   */
  function MergedRoles(existing: seq<Role>, requested: seq<Role>): (r: seq<Role>)
    ensures CleanClassRoles(r, true) == CleanClassRoles(requested, true)
    ensures CleanClassRoles(r, false) == CleanClassRoles(existing, false)
    ensures forall i, j :: 0 <= i < j < |r| && r[j] in CLASS_ROLES ==> r[i] in CLASS_ROLES
  {
    var classes := CleanClassRoles(requested, true);
    var others := CleanClassRoles(existing);
    CleanIdempotent(requested, true);
    CleanIdempotent(existing, false);
    FilterConcat(classes, others, ClassFilter(true));
    FilterConcat(classes, others, ClassFilter(false));
    classes + others
  }

  /** A repeated request with the same roles changes nothing more. */
  lemma MergeIdempotent(existing: seq<Role>, requested: seq<Role>)
    ensures MergedRoles(MergedRoles(existing, requested), requested) == MergedRoles(existing, requested)
  {
  }

  /** After a repeat request the player holds can_captain exactly when the new request asks for it. */
  lemma MergedCanCaptain(existing: seq<Role>, requested: seq<Role>)
    ensures CAN_CAPTAIN in MergedRoles(existing, requested) <==> CAN_CAPTAIN in requested
  {
    var r := MergedRoles(existing, requested);
    if CAN_CAPTAIN in r {
      assert multiset(r)[CAN_CAPTAIN] > 0;
      CleanPartition(r);
      assert multiset(CleanClassRoles(r, true))[CAN_CAPTAIN] > 0;
    }
    if CAN_CAPTAIN in requested {
      assert CAN_CAPTAIN in CleanClassRoles(requested, true);
      assert CAN_CAPTAIN in CleanClassRoles(r, true);
    }
  }

  /**
   * The queue as updateOrAddPlayer leaves it in a lobby waiting for
   * players: the first entry with the same discord id gets the merged
   * roles; otherwise a new entry with the request's name, discord id and
   * roles (and no steam id) is appended.
   */
  function CaptainQueue(players: seq<Player>, request: Player): (r: seq<Player>)
    ensures FindFirst(players, SameDiscord(request.discord)).Some? ==>
      var k := FindFirst(players, SameDiscord(request.discord)).value;
      |r| == |players| && r[k] == players[k].(roles := MergedRoles(players[k].roles, request.roles))
      && forall j :: 0 <= j < |players| && j != k ==> r[j] == players[j]
    ensures FindFirst(players, SameDiscord(request.discord)).None? ==>
      r == players + [Player(request.name, request.discord, None, request.roles)]
  {
    match FindFirst(players, SameDiscord(request.discord))
    case Some(k) => LobbyRules.WithRoles(players, k, MergedRoles(players[k].roles, request.roles))
    case None => players + [Player(request.name, request.discord, None, request.roles)]
  }

  /** Repeating a request for a player already queued leaves the queue as the first request left it. */
  lemma {:induction false} RepeatRequestIdempotent(players: seq<Player>, request: Player)
    requires FindFirst(players, SameDiscord(request.discord)).Some?
    ensures CaptainQueue(CaptainQueue(players, request), request) == CaptainQueue(players, request)
  {
    var k := FindFirst(players, SameDiscord(request.discord)).value;
    var once := CaptainQueue(players, request);
    assert FindFirst(once, SameDiscord(request.discord)) == Some(k) by {
      assert SameDiscord(request.discord)(once[k]);
      assert forall j :: 0 <= j < k ==> once[j] == players[j];
    }
    MergeIdempotent(players[k].roles, request.roles);
  }

  /**
   * For a new player the second request keeps the queue length and the
   * player's roles up to order: the class roles move in front.
   */
  lemma {:induction false} NewPlayerRepeatReorders(players: seq<Player>, request: Player)
    requires FindFirst(players, SameDiscord(request.discord)).None?
    ensures var twice := CaptainQueue(CaptainQueue(players, request), request);
      |twice| == |players| + 1 && multiset(twice[|players|].roles) == multiset(request.roles)
  {
    var once := CaptainQueue(players, request);
    assert FindFirst(once, SameDiscord(request.discord)) == Some(|players|) by {
      assert SameDiscord(request.discord)(once[|players|]);
      assert forall j :: 0 <= j < |players| ==> once[j] == players[j];
    }
    CleanPartition(request.roles);
  }

  /** "player" is not a class role. */
  lemma PlayerNotClassRole()
    ensures PLAYER !in CLASS_ROLES
  {
    forall i | 0 <= i < |CLASS_ROLES| ensures CLASS_ROLES[i] != PLAYER {
      assert CLASS_ROLES[i][0] != 'p' || CLASS_ROLES[i][1] != 'l';
    }
  }

  /** "scout" is a class role. */
  lemma ScoutIsClassRole()
    ensures SCOUT in CLASS_ROLES
  {
    assert CLASS_ROLES[1] == SCOUT;
  }

  /** The class part of [player, scout] is [scout]. */
  lemma PlayerScoutClasses()
    ensures CleanClassRoles([PLAYER, SCOUT], true) == [SCOUT]
  {
    PlayerNotClassRole();
    ScoutIsClassRole();
    assert [PLAYER, SCOUT] == [PLAYER] + [SCOUT];
    FilterConcat([PLAYER], [SCOUT], ClassFilter(true));
  }

  /** The non-class part of [player, scout] is [player]. */
  lemma PlayerScoutOthers()
    ensures CleanClassRoles([PLAYER, SCOUT]) == [PLAYER]
  {
    PlayerNotClassRole();
    ScoutIsClassRole();
    assert [PLAYER, SCOUT] == [PLAYER] + [SCOUT];
    FilterConcat([PLAYER], [SCOUT], ClassFilter(false));
  }

  /** A first request from a new player appends exactly one entry holding the requested roles. */
  lemma FirstRequestAppends(request: Player)
    ensures CaptainQueue([], request) == [Player(request.name, request.discord, None, request.roles)]
    ensures FindFirst(CaptainQueue([], request), SameDiscord(request.discord)) == Some(0)
  {
    var once := CaptainQueue([], request);
    assert SameDiscord(request.discord)(once[0]);
  }

  /** A new player's repeated request leaves one entry holding the request's roles merged with themselves. */
  lemma RepeatOfNewPlayer(request: Player)
    ensures CaptainQueue(CaptainQueue([], request), request)
         == [Player(request.name, request.discord, None, MergedRoles(request.roles, request.roles))]
  {
    FirstRequestAppends(request);
  }

  /** Merging [player, scout] with itself puts the class role first. */
  lemma PlayerScoutMerged()
    ensures MergedRoles([PLAYER, SCOUT], [PLAYER, SCOUT]) == [SCOUT, PLAYER]
  {
    PlayerScoutClasses();
    PlayerScoutOthers();
  }

  /** A concrete reordering: a new player asking for [player, scout] holds [scout, player] after asking again. */
  lemma NewPlayerRepeatExample(request: Player)
    requires request.roles == [PLAYER, SCOUT]
    ensures CaptainQueue(CaptainQueue([], request), request)[0].roles == [SCOUT, PLAYER]
  {
    RepeatOfNewPlayer(request);
    PlayerScoutMerged();
  }

  /**
   * updateOrAddPlayer: a lobby that is not waiting for required players is
   * returned untouched; otherwise its queue becomes `CaptainQueue`.
   */
  method UpdateOrAddPlayer(lobby: Lobby, request: Player) returns (saved: Lobby)
    modifies lobby
    ensures saved == lobby && lobby.status == old(lobby.status)
    ensures old(lobby.status) != LobbyStatus.WaitingForRequiredPlayers ==> lobby.queuedPlayers == old(lobby.queuedPlayers)
    ensures old(lobby.status) == LobbyStatus.WaitingForRequiredPlayers ==>
      lobby.queuedPlayers == CaptainQueue(old(lobby.queuedPlayers), request)
  {
    saved := lobby;
    if lobby.status != LobbyStatus.WaitingForRequiredPlayers {
      return;
    }
    var found := FindFirst(lobby.queuedPlayers, SameDiscord(request.discord));
    if found.Some? {
      var k := found.value;
      var kept := CleanClassRoles(lobby.queuedPlayers[k].roles);
      var roles := CleanClassRoles(request.roles, true) + kept;
      lobby.queuedPlayers := lobby.queuedPlayers[k := lobby.queuedPlayers[k].(roles := roles)];
    } else {
      lobby.queuedPlayers := lobby.queuedPlayers + [Player(request.name, request.discord, None, request.roles)];
    }
  }
}
