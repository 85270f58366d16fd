/**
 * The whitelist request of the game-server agent (hatch.handler.ts,
 * addWhitelistPlayer): the team and class derived from a player's role
 * strings, and the payload sent.
 */
module Hatch {
  import opened Wrappers
  import opened Entities
  import opened Seqs

  /** `p` is a prefix of `s`. */
  predicate IsPrefix(p: string, s: string) {
    |p| <= |s| && s[..|p|] == p
  }

  /** String containment: `sub` occurs in `s` at some position. */
  predicate Contains(s: string, sub: string)
    decreases |s|
  {
    IsPrefix(sub, s) || (|s| > 0 && Contains(s[1..], sub))
  }

  /** Every string contains itself. */
  lemma ContainsSelf(s: string)
    ensures Contains(s, s)
  {
    assert IsPrefix(s, s);
  }

  function Includes(sub: string): Role -> bool {
    (r: Role) => Contains(r, sub)
  }

  /** Filtering the roles by containment of `sub` leaves at least one role. */
  predicate SomeRoleContains(roles: seq<Role>, sub: string)
    ensures SomeRoleContains(roles, sub) <==> exists i :: 0 <= i < |roles| && Contains(roles[i], sub)
  {
    var hits := Filter(roles, Includes(sub));
    assert |hits| > 0 ==> hits[0] in roles && Includes(sub)(hits[0]);
    |hits| > 0
  }

  /** The team sent to the agent: "RED" for team_a or a role containing "red"; failing that "BLU" for team_b or a role containing "blu"; otherwise empty. */
  function DeriveTeam(roles: seq<Role>): (team: string)
    ensures team == "RED" <==> TEAM_A in roles || exists i :: 0 <= i < |roles| && Contains(roles[i], "red")
    ensures team == "BLU" <==> !(TEAM_A in roles || exists i :: 0 <= i < |roles| && Contains(roles[i], "red"))
                               && (TEAM_B in roles || exists i :: 0 <= i < |roles| && Contains(roles[i], "blu"))
    ensures team == "" <==> !(TEAM_A in roles || exists i :: 0 <= i < |roles| && Contains(roles[i], "red"))
                            && !(TEAM_B in roles || exists i :: 0 <= i < |roles| && Contains(roles[i], "blu"))
  {
    if TEAM_A in roles || SomeRoleContains(roles, "red") then "RED"
    else if TEAM_B in roles || SomeRoleContains(roles, "blu") then "BLU"
    else ""
  }

  /** The classes in the order the handler tests them. */
  const CLASS_ORDER: seq<Role> := [SCOUT, SOLDIER, PYRO, HEAVY, DEMOMAN, ENGINEER, SNIPER, MEDIC, SPY]

  /** One test of the chain: the class is held exactly, or some role contains it. */
  predicate ClassTest(roles: seq<Role>, c: Role) {
    c in roles || SomeRoleContains(roles, c)
  }

  /** The if/else chain over `order`: the first class whose test passes, or empty. */
  function FirstClass(roles: seq<Role>, order: seq<Role>): (c: Role)
    requires "" !in order
    ensures c == "" ==> forall k :: 0 <= k < |order| ==> !ClassTest(roles, order[k])
    ensures c != "" ==> exists k :: 0 <= k < |order| && order[k] == c && ClassTest(roles, c)
                          && forall j :: 0 <= j < k ==> !ClassTest(roles, order[j])
  {
    if order == [] then ""
    else if ClassTest(roles, order[0]) then order[0]
    else
      var c := FirstClass(roles, order[1..]);
      if c != "" then
        var k :| 0 <= k < |order[1..]| && order[1..][k] == c && ClassTest(roles, c)
                 && forall j :: 0 <= j < k ==> !ClassTest(roles, order[1..][j]);
        assert order[k + 1] == c;
        c
      else c
  }

  /**
   * The class sent to the agent: the first class, in the handler's order,
   * that some role contains; empty when no role contains any class.
   */
  function DeriveClass(roles: seq<Role>): (c: Role)
    ensures c == "" <==> forall k :: 0 <= k < |CLASS_ORDER| ==> !SomeRoleContains(roles, CLASS_ORDER[k])
    ensures c != "" ==> exists k :: 0 <= k < |CLASS_ORDER| && CLASS_ORDER[k] == c && SomeRoleContains(roles, c)
                          && forall j :: 0 <= j < k ==> !SomeRoleContains(roles, CLASS_ORDER[j])
  {
    forall c ensures ClassTest(roles, c) <==> SomeRoleContains(roles, c) {
      ClassTestBySubstring(roles, c);
    }
    FirstClass(roles, CLASS_ORDER)
  }

  /** The same chain with the substring test alone. */
  function FirstClassBySubstring(roles: seq<Role>, order: seq<Role>): Role
  {
    if order == [] then ""
    else if SomeRoleContains(roles, order[0]) then order[0]
    else FirstClassBySubstring(roles, order[1..])
  }

  /** A role held exactly also contains itself, so one test of the chain is its substring test alone. */
  lemma ClassTestBySubstring(roles: seq<Role>, c: Role)
    ensures ClassTest(roles, c) <==> SomeRoleContains(roles, c)
  {
    if c in roles {
      var i :| 0 <= i < |roles| && roles[i] == c;
      ContainsSelf(c);
      assert Contains(roles[i], c);
    }
  }

  /** Every exact-membership test is implied by its substring test, so the substring tests alone decide the class. */
  lemma {:induction false} ClassBySubstringOnly(roles: seq<Role>, order: seq<Role>)
    requires "" !in order
    ensures FirstClass(roles, order) == FirstClassBySubstring(roles, order)
  {
    if order != [] {
      var c := order[0];
      if c in roles {
        var i :| 0 <= i < |roles| && roles[i] == c;
        ContainsSelf(c);
        assert Includes(c)(roles[i]);
      }
      ClassBySubstringOnly(roles, order[1..]);
    }
  }

  /** The body of the whitelist request: the player's steam id and name unchanged, with the derived team and class. */
  datatype WhitelistPayload = WhitelistPayload(steam: Option<string>, name: string, team: string, playerClass: Role)

  function Payload(p: Player): (w: WhitelistPayload)
    ensures w.steam == p.steam && w.name == p.name
    ensures w.team == DeriveTeam(p.roles)
    ensures w.playerClass == DeriveClass(p.roles)
  {
    WhitelistPayload(p.steam, p.name, DeriveTeam(p.roles), DeriveClass(p.roles))
  }

  /** A player placed on team_b who also holds a "red-" class role is sent as RED: the red test comes first. */
  lemma RedTakesPrecedence(p: Player)
    requires p.roles == [TEAM_B, RED_MEDIC]
    ensures TEAM_B in p.roles && Payload(p).team == "RED"
  {
    assert IsPrefix("red", RED_MEDIC);
    assert Contains(p.roles[1], "red");
  }
}
