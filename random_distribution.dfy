/**
 * The random distribution handler (random.class.ts). `Math.random` is
 * replaced by a sequence of coins, one per queue position: coin `true`
 * stands for the draw 1 (team_b), `false` or a missing coin for 0 (team_a).
 */
module RandomDistribution {
  import opened Entities
  import opened Seqs
  import opened LobbyModel

  /** The draw for queue position `i`. */
  predicate Coin(coins: seq<bool>, i: nat) {
    i < |coins| && coins[i]
  }

  /** The team tag a draw selects. */
  function TeamTag(coin: bool): Role {
    if coin then TEAM_B else TEAM_A
  }

  /** One entry after distribution: a player holding "player" gets the drawn team tag appended; others are left alone. */
  function Tagged(p: Player, coin: bool): (r: Player)
    ensures r.name == p.name && r.discord == p.discord && r.steam == p.steam
    ensures PLAYER !in p.roles ==> r == p
    ensures PLAYER in p.roles ==> r.roles == p.roles + [TeamTag(coin)]
  {
    if PLAYER in p.roles then p.(roles := p.roles + [TeamTag(coin)]) else p
  }

  /** The queue after distribution with the given draws. */
  function RandomTagged(players: seq<Player>, coins: seq<bool>): (r: seq<Player>)
    ensures |r| == |players|
    ensures forall i :: 0 <= i < |r| ==> r[i] == Tagged(players[i], Coin(coins, i))
  {
    seq(|players|, i requires 0 <= i < |players| => Tagged(players[i], Coin(coins, i)))
  }

  /**
   * Every player holding "player" ends up with exactly one more role, a
   * team tag; nobody else changes, and nobody is added, dropped or moved.
   */
  lemma EligibleGetOneTeam(players: seq<Player>, coins: seq<bool>, i: nat)
    requires i < |players|
    ensures var r := RandomTagged(players, coins);
      |r[i].roles| == |players[i].roles| + (if PLAYER in players[i].roles then 1 else 0)
      && r[i].roles[..|players[i].roles|] == players[i].roles
      && (PLAYER in players[i].roles ==> r[i].roles[|players[i].roles|] in {TEAM_A, TEAM_B})
  {
    var r := RandomTagged(players, coins);
    if PLAYER in players[i].roles {
      assert r[i].roles == players[i].roles + [TeamTag(Coin(coins, i))];
    }
  }

  /** A queue in which nobody holds "player" comes back unchanged. */
  lemma NoEligibleUnchanged(players: seq<Player>, coins: seq<bool>)
    requires forall i :: 0 <= i < |players| ==> PLAYER !in players[i].roles
    ensures RandomTagged(players, coins) == players
  {
  }

  /**
   * The handler does not balance teams: with two fresh "player" entries
   * and two draws of 0, both land on team_a.
   */
  lemma NotBalanced(a: Player, b: Player)
    requires a.roles == [PLAYER] && b.roles == [PLAYER]
    ensures Holders(RandomTagged([a, b], [false, false]), TEAM_A) == 2
    ensures Holders(RandomTagged([a, b], [false, false]), TEAM_B) == 0
  {
    var r := RandomTagged([a, b], [false, false]);
    assert r[0].roles == [PLAYER, TEAM_A] && r[1].roles == [PLAYER, TEAM_A];
    FilterKeepsAll(r, Holds(TEAM_A));
    FilterDropsAll(r, Holds(TEAM_B));
  }

  /**
   * distribute: walks the queue with the handler's (never incremented)
   * per-team counters and tags each eligible player in place; the result
   * is `RandomTagged` of the old queue.
   */
  method Distribute(lobby: Lobby, coins: seq<bool>) returns (saved: Lobby)
    modifies lobby
    ensures saved == lobby && lobby.status == old(lobby.status)
    ensures lobby.queuedPlayers == RandomTagged(old(lobby.queuedPlayers), coins)
  {
    var players := lobby.queuedPlayers;
    var eligible := |Filter(players, Holds(PLAYER))|;
    var count := [0, 0];
    var i := 0;
    while i < |players|
      invariant 0 <= i <= |players|
      invariant |lobby.queuedPlayers| == |players|
      invariant forall j :: 0 <= j < i ==> lobby.queuedPlayers[j] == Tagged(players[j], Coin(coins, j))
      invariant forall j :: i <= j < |players| ==> lobby.queuedPlayers[j] == players[j]
      invariant lobby.status == old(lobby.status)
    {
      // max is eligible / 2; `count[x] == max` is compared as 2 * count[x] == eligible.
      var our := if Coin(coins, i) then 1 else 0;
      var other := if our == 0 then 1 else 0;
      var ourFull := 2 * count[our] == eligible;
      var otherFull := 2 * count[other] == eligible;
      var team := if ourFull then other else our;
      var p := lobby.queuedPlayers[i];
      if PLAYER in p.roles && !(ourFull && otherFull) {
        assert p in Filter(players, Holds(PLAYER));
        lobby.queuedPlayers := lobby.queuedPlayers[i := p.(roles := p.roles + [if team == 0 then TEAM_A else TEAM_B])];
      }
      i := i + 1;
    }
    saved := lobby;
  }
}
