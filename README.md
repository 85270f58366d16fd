# Cytokine lobby and match core, modelled in Dafny

Cytokine is a NestJS service that game communities (for example, a Discord bot) use
to run pick-up games. A **client** sends a **lobby request**. The service then creates a
**match** for the lobby and queues **players**, each of whom carries a list of **roles**.
A periodic monitor checks every lobby that is waiting for players:

- a lobby past its expiry time is marked expired and its match is closed;
- a lobby whose role requirements are all met gets its players distributed into teams,
  and its match moves on to `LOBBY_READY`.

A match then asks a server provider for a game server and follows that server's
status callbacks. A hatch handler builds the request that whitelists a player on a
game server, with a team and a class derived from the player's roles.

This project models that core:

- the client access checks (`clients.dfy`);
- the admission check a match request passes (`match_admission.dfy`);
- the match service, with its repository of `Match` objects, its notification outbox
  and its server requests (`matches.dfy`);
- the pure rules of the lobby service: expiry default, player selection, queue and
  role edits, and the requirement tally (`lobby_rules.dfy`);
- the `Lobby` document (`lobby_model.dfy`) and the lobby service, whose methods update
  lobbies in place (`lobbies.dfy`);
- the distributor (`distributor.dfy`) and its three handlers: random
  (`random_distribution.dfy`), team-role-based (`team_role_based.dfy`) and captain
  (`captain.dfy`);
- the team and class derivation of the hatch whitelist request (`hatch.dfy`);
- the older match and lobby services that still ship beside the current ones
  (`legacy_matches.dfy`, `legacy_lobbies.dfy`).

Documents that the source saves after changing fields are Dafny classes with `var`
fields. Their fields that never change after creation are `const`. Each repository is a
`seq` field of its service class. Randomness, the clock and the answers of external
services are method parameters:

- `coins` stands for `Math.random`;
- `now` stands for `new Date()`;
- `providers` and `created` stand for the lighthouse answers.

Outgoing HTTP calls are appended to log fields of the service:

- `outbox` holds callback notifications;
- `serverRequests` holds server creation requests;
- `closeRequests` holds the match closes the lobby service asks for;
- `statusUpdates` holds lobby status changes.

### Where the model follows the code

The model does what the code does where the code and its documentation differ:

- Adding a player to a lobby (`LobbyService.AddPlayer`) appends the player to the
  queue directly. It does not go through the distribution handler, and it does not
  check who created the lobby.
- Random distribution never balances the teams. The per-team counters it tests against
  half the number of eligible players are never incremented, so every eligible player
  simply gets the team its own draw picks (`RandomDistribution.NotBalanced`).
- A server status of `IDLE` or `RUNNING` moves a match from `CREATING_SERVER` to
  `WAITING`, and `FAILED` moves it to `FAILED`. Every other server status, `CLOSED`
  included, changes nothing.
- In the team-role-based handler a new player whose role is already filled is still
  admitted while the teams are not full, because the two conditions are combined
  with a double negation (`TeamRoleBased.FilledRoleStillAdmitsWhileTeamsOpen`).
- Closing a lobby that is not active changes nothing and returns no lobby.
- The status values `CLOSED`, `EXPIRED` (lobbies), `CLOSED`, `WAITING`
  (matches) and the TF2 class roles are not declared in the source's enums but are
  used by the code. They are modelled as named datatype values, and class roles as the
  lower-case strings the hatch handler also tests with substring matches.
- The older lobby service takes the initial queue from `matchOptions.players`, and it
  never sets a status on the lobby it creates, so its `playerJoin` refuses every
  player of such a lobby.

## Model

| member | source | states |
|---|---|---|
| Clients.GetRegionLimit | src/modules/clients/client.model.ts:38-44 | a region limit exists exactly when the client has access to the region, and it is that region's configured limit |
| MatchAdmission.Admission | src/modules/matches/match.service.ts:133-156 | a match request is admitted iff the client has the game, has the region and has fewer active matches than its limit; otherwise the refusal is the first failing check, in the order game, region, limit |
| MatchAdmission.QuotaMonotone | src/modules/matches/match.service.ts:145-156 | admission can only turn into a limit refusal as the number of active matches grows, never back |
| Matches.Match.constructor | src/modules/matches/match.model.ts:1-38 | a new match document holds the given fields and no server |
| Matches.IsActive | src/modules/matches/match.service.ts:25-28 | a match that is lobby-ready, creating a server, waiting or failed is not active, so it does not count against the quota |
| Matches.CountActive | src/modules/matches/match.service.ts:145-150 | the number of a client's matches in an active status is at most the number of matches, and zero exactly when none of that client's matches is active |
| Matches.CountActiveAppend | src/modules/matches/match.service.ts:145-171 | storing one more match raises a client's active count by exactly one when the match is that client's and active, and leaves it unchanged otherwise |
| Matches.IndexOfId | src/modules/matches/match.service.ts:46-58 | lookup by id finds the first match with that id, and fails exactly when no match has it |
| Matches.GetByIdForClient | src/modules/matches/match.service.ts:66-80 | the match is returned iff it exists and belongs to the client; every failure is NotFound |
| Matches.IndexOfServer | src/modules/matches/match.service.ts:285-287 | the match found for a server is the first one whose server is that id, and none is found exactly when no match uses the server |
| Matches.ServerStatusEffect | src/modules/matches/match.service.ts:289-295 | only a match that is creating a server reacts; IDLE or RUNNING leads to WAITING and FAILED to FAILED, each a real change |
| Matches.OtherServerStatusesIgnored | src/modules/matches/match.service.ts:289-295 | any server status other than IDLE, RUNNING and FAILED leaves the match as it is |
| Matches.MatchService.constructor | src/modules/matches/match.service.ts:33-39 | the service starts from the given repository with no notifications and no server requests |
| Matches.MatchService.CreateRequest | src/modules/matches/match.service.ts:123-174 | a request is refused iff admission refuses it, with that refusal and no change; an admitted one appends one fresh match waiting for its lobby, with the request's players (or none) and a lighthouse-server preference, and raises the client's active count by one |
| Matches.MatchService.PlayerJoin | src/modules/matches/match.service.ts:183-197 | joining an unknown match is NotFound and changes no match; a match that is not waiting for players refuses; otherwise the player is appended to that match only; no status or server changes |
| Matches.MatchService.UpdateStatusAndNotify | src/modules/matches/match.service.ts:206-237 | setting the current status again does nothing; a new status is stored and one notification with the match's callback, status and id is queued |
| Matches.MatchService.CreateServerForMatch | src/modules/matches/match.service.ts:244-272 | the match first moves to CREATING_SERVER; with no provider for the region it fails with NoProvider; otherwise one server request is sent and the match keeps the created server or becomes FAILED; a CREATING_SERVER notification is posted when the status changes and a FAILED one on failure, each only when the match has a callback URL |
| Matches.MatchService.HandleServerStatusChange | src/modules/matches/match.service.ts:280-296 | a server nobody uses is NotFound and changes nothing; otherwise only the first match using that server is updated, by the server status rule |
| LobbyRules.IsActive | src/modules/lobbies/lobby.service.ts:20-24 | a closed or expired lobby, or one with no status, is not active, so it blocks neither its creator nor its queued players |
| LobbyRules.ExpiryOrDefault | src/modules/lobbies/lobby.service.ts:197-200 | a missing or zero expiry time becomes 1800 seconds; any other value is kept |
| LobbyRules.SelectPlayer | src/modules/lobbies/lobby.service.ts:286-302 | no player is found exactly when none matches the id of the given kind; otherwise the first matching player is returned |
| LobbyRules.WithoutPlayer | src/modules/lobbies/lobby.service.ts:326-333 | the remaining queue holds exactly the players the id does not select, each of them taken from the old queue |
| LobbyRules.WithoutPlayerSpec | src/modules/lobbies/lobby.service.ts:326-333 | after removal no selected player is left, every other player keeps its number of occurrences, and removal distributes over concatenation |
| LobbyRules.WithRoleAdded | src/modules/lobbies/lobby.service.ts:365-377 | adding a role appends it to that player's roles and leaves the player's identity and every other player unchanged |
| LobbyRules.WithoutRole | src/modules/lobbies/lobby.service.ts:421-423 | the role is gone from the player's roles, and exactly the other roles remain |
| LobbyRules.WithoutRoleSpec | src/modules/lobbies/lobby.service.ts:412-423 | after removal the role is gone, every other role keeps its count, and removing twice is removing once |
| LobbyRules.AddRolesCounts | src/modules/lobbies/lobby.service.ts:437-443 | counting one player's roles adds each role's occurrences to the running count |
| LobbyRules.CountRolesIsTally | src/modules/lobbies/lobby.service.ts:437-443 | the count map built over the queue gives every role its tally |
| LobbyRules.CheckForRequiredPlayers | src/modules/lobbies/lobby.service.ts:434-464 | the lobby is ready iff every requirement's tally reaches its count and, unless overfill is allowed, does not exceed it |
| LobbyRules.MetIffNeitherFilter | src/modules/lobbies/lobby.service.ts:445-450 | a requirement is met by its tally exactly when neither the unfilled nor the overfilled filter picks it |
| LobbyRules.NoUnfilledNoOverfilled | src/modules/lobbies/lobby.service.ts:445-463 | the two filters of the source are both empty exactly when every requirement is met |
| LobbyRules.UnheldRequirementUnmet | src/modules/lobbies/lobby.service.ts:445-447 | a requirement that no queued player holds keeps the lobby waiting |
| LobbyRules.NoHolderNoTally | src/modules/lobbies/lobby.service.ts:437-447 | a role nobody holds has tally 0 |
| LobbyRules.TallyAppend | src/modules/lobbies/lobby.service.ts:272 | queuing a player raises each role's tally by that player's occurrences of it |
| LobbyModel.Lobby.constructor | src/modules/lobbies/lobby.model.ts:1-36 | a new lobby document holds the given fields |
| Lobbies.IndexOfLobby | src/modules/lobbies/lobby.service.ts:46-58 | lookup by id finds the first lobby with that id, and fails exactly when no lobby has it |
| Lobbies.ActiveByUser | src/modules/lobbies/lobby.service.ts:117-122 | the lobbies found are exactly the active lobbies the user created |
| Lobbies.CreatedActiveLobby | src/modules/lobbies/lobby.service.ts:117-122 | the user has created an active lobby iff some lobby created by the user is in an active status |
| Lobbies.QueuedIn | src/modules/lobbies/lobby.service.ts:143-148 | the lobbies found are exactly the active lobbies that queue a player with the Discord id |
| Lobbies.QueuedInActiveLobby | src/modules/lobbies/lobby.service.ts:143-148 | a Discord id is queued iff some active lobby has a queued player with that id |
| Lobbies.IndexOfActiveLobby | src/modules/lobbies/lobby.service.ts:218-221 | the lobby close looks up is the first active lobby with the id, and there is none exactly when no lobby with the id is active |
| Lobbies.WaitingLobbies | src/modules/lobbies/lobby.service.ts:471-473 | the monitor visits exactly the lobbies waiting for required players |
| Lobbies.GetPlayer | src/modules/lobbies/lobby.service.ts:286-302 | an unknown lobby is NotFound; otherwise the result is the first queued player the id selects, or none |
| Lobbies.EffectiveMatchOptions | src/modules/lobbies/lobby.service.ts:160-162 | the match options take the lobby's callback only when they have none of their own, and are otherwise unchanged |
| Lobbies.LobbyService.constructor | src/modules/lobbies/lobby.service.ts:29-39 | the service starts from the given lobbies and match service with empty logs |
| Lobbies.LobbyService.CreateRequest | src/modules/lobbies/lobby.service.ts:156-205 | a user with an active lobby is refused iff it created one, a user queued in an active lobby next, and both refusals change no lobby and no match; otherwise the request is refused iff the match admission refuses it, with that refusal; an accepted one appends one fresh waiting lobby with the default expiry applied, bound to one fresh match appended to the match repository with the request's players, and raises the client's active count by one |
| Lobbies.LobbyService.Close | src/modules/lobbies/lobby.service.ts:213-240 | when no lobby with the id is active nothing changes and no lobby is returned; otherwise the close of the first active lobby's match is requested, and only when that reports CLOSED does that lobby become CLOSED, with one status update, and is returned; no queue changes |
| Lobbies.LobbyService.AddPlayer | src/modules/lobbies/lobby.service.ts:249-276 | a player queued in any active lobby is refused first, then an unknown lobby is NotFound and a lobby not waiting for players refuses; otherwise the player is appended to that lobby's queue only and no status changes |
| Lobbies.LobbyService.RemovePlayer | src/modules/lobbies/lobby.service.ts:312-337 | an unknown lobby is NotFound and a lobby not waiting for players refuses; otherwise that lobby's queue loses exactly the selected players and every other queue and every status is kept |
| Lobbies.LobbyService.AddPlayerRole | src/modules/lobbies/lobby.service.ts:348-381 | an unknown lobby is NotFound, a lobby not waiting for players refuses, an unselected player is PlayerNotFound; otherwise the first selected player gains the role and nothing else changes |
| Lobbies.LobbyService.RemovePlayerRole | src/modules/lobbies/lobby.service.ts:392-427 | an unknown lobby is NotFound, a lobby not waiting for players refuses, an unselected player is PlayerNotFound; otherwise the first selected player loses every copy of the role and nothing else changes |
| Lobbies.LobbyService.HandleExpiredLobby | src/modules/lobbies/lobby.service.ts:526-540 | the lobby becomes EXPIRED, its queue is kept, and one status update and one match close are logged |
| Lobbies.LobbyService.ProcessLobby | src/modules/lobbies/lobby.service.ts:504-519 | the lobby goes through DISTRIBUTING to DISTRIBUTED with one status update each, random lobbies get their players tagged and others keep their queue; the lobby's match, if it exists, becomes LOBBY_READY with the lobby's queue, a missing one is MatchNotFound; no other match changes and no server changes |
| Lobbies.LobbyService.MonitorLobby | src/modules/lobbies/lobby.service.ts:486-497 | an expired lobby becomes EXPIRED with its match close requested; a lobby whose requirements are met gets everything ProcessLobby states, its match LOBBY_READY with its queue included; any other lobby, and every match, is left as it is |
| Lobbies.LobbyService.Monitor | src/modules/lobbies/lobby.service.ts:469-484 | every lobby not waiting is untouched; every waiting lobby is expired with its match close requested, distributed, or left waiting, by the rule of its own check at the start of the pass; a distributed lobby that alone uses its match has that match LOBBY_READY with its queue |
| Lobbies.LobbyService.RunPass | src/modules/lobbies/lobby.service.ts:479-483 | after the pass, every lobby that was waiting shows the outcome its queue at the start of the pass decides, every expired lobby's match close is requested, and every processed lobby that alone uses its match has that match ready with its queue |
| Lobbies.LobbyService.VisitWaiting | src/modules/lobbies/lobby.service.ts:479-483 | visiting the next waiting lobby extends by one lobby both the lobbies' outcomes and the close requests and ready matches of the pass |
| RandomDistribution.Tagged | src/modules/distributor/handlers/random.class.ts:17-30 | a player without the player role is untouched; one with it gains exactly one team tag |
| RandomDistribution.RandomTagged | src/modules/distributor/handlers/random.class.ts:12-32 | the queue keeps its length and each player is tagged by its own draw |
| RandomDistribution.EligibleGetOneTeam | src/modules/distributor/handlers/random.class.ts:17-30 | after distribution every eligible player holds one more team tag than before and ineligible ones are unchanged |
| RandomDistribution.NoEligibleUnchanged | src/modules/distributor/handlers/random.class.ts:7-19 | a queue without eligible players is left as it is |
| RandomDistribution.NotBalanced | src/modules/distributor/handlers/random.class.ts:10-30 | two eligible players with the same draw both land on team_a, so the teams are not balanced |
| RandomDistribution.Distribute | src/modules/distributor/handlers/random.class.ts:5-38 | the loop tags the queue in place exactly as the draws say and keeps the lobby's status |
| Distributor.Distribute | src/modules/distributor/distributor.service.ts:10-19 | a random lobby is distributed and returned; any other distribution type returns nothing and leaves the queue alone |
| TeamRoleBased.LastNamed | src/modules/distributor/handlers/team-role-based.class.ts:72-82 | finds the last requirement with a name, which is the one whose flag survives |
| TeamRoleBased.RequirementFlags | src/modules/distributor/handlers/team-role-based.class.ts:72-82 | there is a flag for each requirement name, and it says whether the players holding that role reach the last such requirement's count |
| TeamRoleBased.Verify | src/modules/distributor/handlers/team-role-based.class.ts:69-95 | the teams flag says whether the players on a team equal the maximum; every other flag is the requirement flag |
| TeamRoleBased.NamesAndCountsDecide | src/modules/distributor/handlers/team-role-based.class.ts:72-82 | requirements with the same names and counts give the same flags |
| TeamRoleBased.OverfillIrrelevant | src/modules/distributor/handlers/team-role-based.class.ts:79-81 | the overfill setting never changes a requirement flag |
| TeamRoleBased.HoldersAtMostTally | src/modules/distributor/handlers/team-role-based.class.ts:73-75 | the players holding a role are at most the role's tally |
| TeamRoleBased.Placed | src/modules/distributor/handlers/team-role-based.class.ts:10-21 | a queued player's roles are replaced in place; an unknown player is appended |
| TeamRoleBased.IsPlayerAllowed | src/modules/distributor/handlers/team-role-based.class.ts:23-62 | a new player is refused only when the teams are full and the wanted role is filled, each before or after the player joins |
| TeamRoleBased.QueuedHolderRefused | src/modules/distributor/handlers/team-role-based.class.ts:32-37 | a queued player who already holds the wanted role is refused |
| TeamRoleBased.RoleChangeRule | src/modules/distributor/handlers/team-role-based.class.ts:40-48 | a queued player changing roles is refused iff the wanted role is filled both before and after the change |
| TeamRoleBased.NewPlayerRule | src/modules/distributor/handlers/team-role-based.class.ts:51-61 | a new player is refused iff, before or after joining, both the wanted role and the teams are filled |
| TeamRoleBased.UnrequiredRoleAllowed | src/modules/distributor/handlers/team-role-based.class.ts:28-61 | asking for a role that no requirement names and that is not "teams" is allowed, unless the player is already queued holding that role |
| TeamRoleBased.NewPlayerAllowedWhileTeamsOpen | src/modules/distributor/handlers/team-role-based.class.ts:51-61 | a new player is allowed, whatever role it asks for, while the teams are not full before and after it joins |
| TeamRoleBased.TeamsOpenWithoutTags | src/modules/distributor/handlers/team-role-based.class.ts:85-92 | while nobody carries a team tag, the teams entry is false for any non-zero maximum |
| TeamRoleBased.AllPlayersFill | src/modules/distributor/handlers/team-role-based.class.ts:72-82 | n players holding "player" fill a requirement of n "player"s |
| TeamRoleBased.FilledRoleStillAdmitsWhileTeamsOpen | src/modules/distributor/handlers/team-role-based.class.ts:51-61 | with a full "player" requirement and no team tags yet, a further new "player" is still allowed |
| TeamRoleBased.AddOrUpdatePlayer | src/modules/distributor/handlers/team-role-based.class.ts:10-21 | the lobby's queue becomes the placed queue and its status is kept |
| Captain.CleanClassRoles | src/modules/distributor/handlers/captain.class.ts:16-50 | the result keeps exactly the roles on the chosen side of the class list, each with its count |
| Captain.CleanConcat | src/modules/distributor/handlers/captain.class.ts:47-49 | cleaning keeps or drops each role on its own, so it distributes over concatenation and keeps the order of the roles it keeps |
| Captain.CleanPartition | src/modules/distributor/handlers/captain.class.ts:47-49 | the class part and the non-class part together are the original roles |
| Captain.CleanIdempotent | src/modules/distributor/handlers/captain.class.ts:47-49 | cleaning twice is cleaning once, and the other side of a cleaned list is empty |
| Captain.CanCaptainStripped | src/modules/distributor/handlers/captain.class.ts:17-49 | can-captain is a class role, so cleaning removes it |
| Captain.MergedRoles | src/modules/distributor/handlers/captain.class.ts:67-73 | the merged roles take their class roles from the request and their other roles from the queued player, with every class role before every other role |
| Captain.MergeIdempotent | src/modules/distributor/handlers/captain.class.ts:67-73 | merging the same request twice is merging it once |
| Captain.MergedCanCaptain | src/modules/distributor/handlers/captain.class.ts:17-73 | after a merge a player may captain iff the request says so |
| Captain.CaptainQueue | src/modules/distributor/handlers/captain.class.ts:60-85 | a queued player gets the merged roles in place; a new player is appended with the requested roles and no Steam id |
| Captain.RepeatRequestIdempotent | src/modules/distributor/handlers/captain.class.ts:64-73 | repeating a request of a queued player changes nothing more |
| Captain.NewPlayerRepeatReorders | src/modules/distributor/handlers/captain.class.ts:64-80 | repeating a new player's request keeps the player's roles as a multiset and the queue's length |
| Captain.FirstRequestAppends | src/modules/distributor/handlers/captain.class.ts:74-80 | a new player's first request appends one entry with the requested roles, found at the head of an empty queue |
| Captain.RepeatOfNewPlayer | src/modules/distributor/handlers/captain.class.ts:64-80 | a new player's repeated request leaves one entry holding the request's roles merged with themselves |
| Captain.PlayerScoutMerged | src/modules/distributor/handlers/captain.class.ts:67-73 | merging [player, scout] with itself gives [scout, player] |
| Captain.NewPlayerRepeatExample | src/modules/distributor/handlers/captain.class.ts:64-80 | a repeated [player, scout] request is stored as [scout, player], so it is not idempotent for new players |
| Captain.UpdateOrAddPlayer | src/modules/distributor/handlers/captain.class.ts:60-85 | outside WAITING_FOR_REQUIRED_PLAYERS nothing changes; inside it the queue becomes the captain queue; the status is kept |
| Hatch.SomeRoleContains | src/modules/matches/hatch.handler.ts:94-99 | some role contains the text iff a role contains it as a substring |
| Hatch.DeriveTeam | src/modules/matches/hatch.handler.ts:89-102 | the team is RED iff the player is on team_a or a role mentions red; otherwise BLU iff on team_b or a role mentions blu; otherwise empty |
| Hatch.FirstClass | src/modules/matches/hatch.handler.ts:104-149 | the class is the first in the fixed order that the roles match, or empty when none does |
| Hatch.DeriveClass | src/modules/matches/hatch.handler.ts:104-149 | the class is empty iff no role contains any class name; otherwise it is the first class, in the handler's order, that some role contains |
| Hatch.ClassTestBySubstring | src/modules/matches/hatch.handler.ts:104-149 | each test of the class chain, exact role or substring, passes exactly when some role contains the class name |
| Hatch.ClassBySubstringOnly | src/modules/matches/hatch.handler.ts:104-149 | the exact-role test adds nothing to the substring test |
| Hatch.Payload | src/modules/matches/hatch.handler.ts:151-159 | the whitelist request carries the player's Steam id and name, the team derived from the roles and the class derived from the roles |
| Hatch.RedTakesPrecedence | src/modules/matches/hatch.handler.ts:92-101 | a team_b player with a red-medic role is whitelisted on RED |
| LegacyMatches.IsActiveLegacy | src/modules/matches/matches.service.ts:29-32 | the older active set shares only LIVE with the current one |
| LegacyMatches.MatchesService.constructor | src/modules/matches/matches.service.ts:37-39 | the older match service starts from the given repository |
| LegacyMatches.MatchesService.CreateRequest | src/modules/matches/matches.service.ts:123-158 | the same admission checks, counted over matches waiting for minimum players or live; an admitted request creates one match waiting for minimum players |
| LegacyMatches.MatchesService.PlayerJoin | src/modules/matches/matches.service.ts:168-173 | joining fails only for an unknown match, and then changes no match; otherwise it appends the player whatever the match's status |
| LegacyLobbies.IsActiveLegacy | src/modules/lobbies/lobby.serivce.ts:13-16 | the older active set shares only WAITING_FOR_REQUIRED_PLAYERS with the current one |
| LegacyLobbies.ActiveSetsDiffer | src/modules/lobbies/lobby.serivce.ts:13-16 | the older service counts LIVE lobbies as active and distributing lobbies as not |
| LegacyLobbies.LegacyLobby.constructor | src/modules/lobbies/lobby.serivce.ts:108-121 | a lobby made by the older service has no status |
| LegacyLobbies.IndexOfLegacyLobby | src/modules/lobbies/lobby.serivce.ts:31-44 | lookup by id finds the first lobby with that id, and fails exactly when no lobby has it |
| LegacyLobbies.LegacyLobbyService.constructor | src/modules/lobbies/lobby.serivce.ts:21-24 | the older lobby service starts from the given lobbies and match service |
| LegacyLobbies.LegacyLobbyService.CreateRequest | src/modules/lobbies/lobby.serivce.ts:108-121 | the request is refused iff the match admission refuses it, with that refusal and no change; otherwise one fresh match waiting for its lobby is appended, raising the client's active count by one, and one lobby with no status is appended, bound to that match and queued with the match options' players |
| LegacyLobbies.LegacyLobbyService.PlayerJoin | src/modules/lobbies/lobby.serivce.ts:130-140 | an unknown lobby is NotFound, a lobby not waiting for players refuses, otherwise the player is appended |

## Left out

- Persistence: the Mongoose repositories are `seq` fields; `save`, `markModified` and query errors are not modelled. A malformed id, which the source turns into NotFound, is modelled like a missing one.
- Timers: the `setInterval` monitors, and the 100 ms `setTimeout` that schedules every waiting lobby's visit at once, are modelled as one pass that visits the waiting lobbies one after the other in repository order; the interleaving of those visits with each other, with later passes and with requests is not modelled.
- Randomness: `Math.random` is a sequence of coin draws, one per queued player.
- Time: dates are integer seconds. The source's in-place `setSeconds` on the creation date is modelled as an addition.
- HTTP: callback notifications, the lighthouse provider query, server creation requests, match closes and the hatch whitelist call are modelled as inputs (`providers`, `created`) or appended log entries. Their network failures, retries and response bodies are not modelled.
- Aliasing: the team-role-based handler's shallow copy of the lobby means its trial update also changes the real queue; the model evaluates the trial on a copy. The lobby service's match receives the lobby's queue by reference; the model copies the value.
- JavaScript object keys: the requirement map of the team-role-based handler is a `map<string, bool>`, and the role count map of `checkForRequiredPlayers` is a `map<string, nat>`. Keys inherited from `Object.prototype`, such as `constructor` or `toString`, read as truthy functions in the source; so a requirement named `toString` counts as met there even with an empty queue, while the model reports it unmet. These inherited keys are not modelled.
- Missing fields: absent `data`, `requirements` or `roles`, which make the source throw a `TypeError`, are not modelled; the DTOs' optional fields that the core ignores are left out.
- The `$elemMatch` query on a player's Discord id is modelled as equality on an optional string, so a missing id matches only players with no id.
- Lookups by id return the first document with that id; ids are not assumed unique. The lobby close searches for the first active lobby with the id, as its query does.
- Monitor: a processed lobby's match is stated LOBBY_READY only for a lobby that no other waiting lobby shares its match id with, because such lobbies overwrite each other's match in the source too. The players of a Random lobby are stated per visit (`MonitorLobby`), not for the whole pass: a lobby listed twice would be tagged twice.
- Frames: ProcessLobby, MonitorLobby and VisitWaiting may change only the service's logs, the visited lobby and the matches with that lobby's match id; every other document is kept by that frame rather than by an ensures.
- Clients.HasGameAccess, Clients.HasRegionAccess and Clients.GetLimit: each reads one configuration field and carries no contract of its own; Admission states what they decide.
- Hatch: the whitelist loop over a match's players, the host, port and password and the setting of the map are not modelled; only the per-player payload is.
- The lighthouse provider lookup (`getAvailableRegionProvider`) and the server request sender are external calls; their results are parameters.
- The lobby controller and match controller (routing, authentication of clients) are not part of this model.
