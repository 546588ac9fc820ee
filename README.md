# Mafia game server: room registry and role distributor

A Dafny model of the server core of a Mafia party game. A host creates a room
under a six-character code and sets how many of each role it deals (mafia,
doktor, kurva, policajac, civil). Players join the room by code, up to one
player per role. The host starts the game, and the server shuffles the roles
and hands one to each player. The host can then restart the room, read every
player's role, or delete the room.

Files:

- `types.dfy` (module `Types`): the data shapes of `server/src/types.ts`. It
  defines `Role`, `RoleConfig` (five `nat` counts), `Player` (id, name,
  optional role) and `Game`. It also defines the role total and the configured
  multiset of roles.
- `role_distributor.dfy` (module `RoleDistributor`): `server/src/roleDistributor.ts`.
  - The five push loops that build the role list (`PushCopies`, `BuildRoles`),
    proved equal to the specification `RoleList`.
  - The in-place Fisher–Yates `Shuffle` on an `array`. It records the random
    picks it made. Its result equals the specification `Swaps` applied to the
    old contents and those picks, and it has the same multiset as the old
    contents.
  - The positional deal `Deal`, and `DistributeRoles`, which chains the three
    steps.
  - `ValidateRoleConfig`.
- `game_manager.dfy` (module `GameManager`): `server/src/gameManager.ts`.
  - Code generation and ASCII upper-casing.
  - Each room transition as a function on a `Game` value (`Join`, `Remove` /
    `WithoutPlayer`, `Restart`, `CanStart`/`Dealt`, `Reveals`), with lemmas
    that each one keeps the room invariant `Fits`. `Fits` means: no more
    players than role slots, no connection id twice, and every player holds a
    role once the room has started.
  - The class `Registry`, which holds the module-level `games` map as a
    `map<string, Game>` field. Its methods are `createGame`, `joinGame`,
    `removePlayer`, `startGame`, `restartGame` and `deleteGame`. The read-only
    `getGame` and `getAllRoles` are functions that read the object. Every
    method keeps `Valid()`: each room is filed under its own generated code
    and satisfies `Fits`. Every method also states the map it leaves behind,
    so other rooms are unchanged.
- `scenario.dfy` (module `Scenario`): a client of the registry's contracts. A
  room with one mafia, one doktor and one civil fills with three players and
  refuses a fourth. The host starts it, and a second start is refused. The host
  then sees every player's role, and the roles are exactly the configured ones.

Randomness (`Math.random()`) is a nondeterministic choice within the bounds the
source computes. For a shuffle the choice is `j` in `[0, i]`. For a code
character it is an index into the 32-character alphabet. Everything proved
holds for every choice.

A consequence of the invariant: `getAllRoles` never falls back to `'unknown'`.
A started room has dealt every player a role. `removePlayer` keeps the roles of
the players who stay. A started room accepts no joins.

## Model

| member | source | states |
|---|---|---|
| Types.RoleMultisetCounts | server/src/types.ts:3-9 | the configured multiset holds each role kind exactly its count, and its size is the sum of the five counts |
| RoleDistributor.Repeat | server/src/roleDistributor.ts:6-10 | the list one push loop builds has exactly `n` entries, all equal to the pushed role |
| RoleDistributor.RepeatCount | server/src/roleDistributor.ts:6-10 | `n` copies of a role contain that role `n` times and every other role zero times |
| RoleDistributor.RoleListIsConfigured | server/src/roleDistributor.ts:4-10 | the unshuffled role list has length mafia+doktor+kurva+policajac+civil, and its multiset is the configured multiset |
| RoleDistributor.PushCopies | server/src/roleDistributor.ts:6-10 | one counting loop appends exactly `n` copies of the role to the list it is given |
| RoleDistributor.BuildRoles | server/src/roleDistributor.ts:4-10 | the five loops build exactly the role list of the configuration, with every mafia first and every civil last |
| RoleDistributor.SwapAt | server/src/roleDistributor.ts:23 | exchanging two entries keeps the length of the list |
| RoleDistributor.Swaps | server/src/roleDistributor.ts:20-25 | any prefix of a Fisher–Yates pass whose partners stay within `[0, i]` keeps the length of the list |
| RoleDistributor.SwapsExtend | server/src/roleDistributor.ts:20-25 | a later pick does not change the swaps already made, so the pass can be followed one loop iteration at a time |
| RoleDistributor.Swap | server/src/roleDistributor.ts:23 | the destructuring assignment exchanges the two array entries and keeps the array's multiset |
| RoleDistributor.Shuffle | server/src/roleDistributor.ts:20-25 | the in-place loop swaps index `i` (from the last down to 1) with some `j` in `[0, i]`; the array ends equal to those swaps applied to its old contents, so it is a permutation of them |
| RoleDistributor.Deal | server/src/roleDistributor.ts:14-17 | player `k` keeps its id and name and gets `roles[k]`, or no role when the list is shorter than the roster |
| RoleDistributor.DealComplete | server/src/roleDistributor.ts:14-17 | dealing a role list as long as the roster gives every player a role, and the roles in player order are that list |
| RoleDistributor.DistributeRoles | server/src/roleDistributor.ts:3-18 | the result is as long as the roster; entry `k` keeps player `k`'s id and name and gets the `k`-th shuffled role, or none past the role total; the shuffled list is a permutation of the configured roles; with exactly as many players as roles, every player gets a role and the roles dealt are the configured multiset |
| RoleDistributor.ValidateRoleConfig | server/src/roleDistributor.ts:27-30 | true exactly when the role list has one role per player, i.e. the five counts sum to the player count |
| GameManager.GenerateCode | server/src/gameManager.ts:6-13 | the code has exactly 6 characters, each from `ABCDEFGHJKLMNPQRSTUVWXYZ23456789` |
| GameManager.Upper | server/src/gameManager.ts:39 | upper-casing keeps the length, leaves no lower-case ASCII letter, maps each lower-case letter to its capital and leaves every other character as it was |
| GameManager.Lookup | server/src/gameManager.ts:38-40 | a room is found exactly when the upper-cased code is a key, and the room found is that key's entry |
| GameManager.UpperIdempotent | server/src/gameManager.ts:38-40 | upper-casing an upper-cased code changes nothing |
| GameManager.CodeIsUpper | server/src/gameManager.ts:6-13 | a generated code is its own upper-case form, so every spelling of it that upper-cases to it finds the room |
| GameManager.LookupIgnoresCase | server/src/gameManager.ts:38-40 | looking up any spelling of a code finds the same room as its upper-case form |
| GameManager.Join | server/src/gameManager.ts:42-54 | a join is refused exactly when the room has started or holds `players.length >= total` players; an accepted join leaves at most `total` players, contains the joining id, keeps the old roster as a prefix and adds at most one player; a new id has exactly the joining player appended at the end; a known id gets the room back unchanged |
| GameManager.JoinFits | server/src/gameManager.ts:42-54 | a join keeps the room invariant: the capacity bound, distinct ids, and roles once started |
| GameManager.JoinTwice | server/src/gameManager.ts:49-50 | a second join by the same id returns the room unchanged, or is refused when the first join filled the room, because the capacity check comes first |
| GameManager.Remove | server/src/gameManager.ts:60 | the filtered roster keeps exactly the players whose id differs, and no entry with that id is left |
| GameManager.RemoveAbsent | server/src/gameManager.ts:60 | removing an id that no player has changes nothing |
| GameManager.RemoveConcat | server/src/gameManager.ts:60 | filtering distributes over concatenation, so the players kept stay in their relative order |
| GameManager.RemoveDistinct | server/src/gameManager.ts:60 | filtering keeps connection ids distinct |
| GameManager.WithoutPlayer | server/src/gameManager.ts:56-62 | on a room that exists, only the roster changes, and only by losing the entries with that id |
| GameManager.RemoveFits | server/src/gameManager.ts:56-62 | removing a player keeps the room invariant, including roles on every remaining player of a started room |
| GameManager.Restart | server/src/gameManager.ts:78-85 | a restart changes only the roster and sets `started` to false |
| GameManager.RestartKeepsRoster | server/src/gameManager.ts:82-83 | after a restart the roster has the same ids and names in the same order, and no player holds a role |
| GameManager.RestartFits | server/src/gameManager.ts:78-85 | a restart keeps the room invariant |
| GameManager.CanStart | server/src/gameManager.ts:66-71 | a start goes ahead exactly when the requester is the host, the room is a lobby and `validateRoleConfig` accepts the player count; such a lobby refuses every further join |
| GameManager.StartFits | server/src/gameManager.ts:64-76 | a room started from a full lobby with a dealt roster satisfies the room invariant and cannot be started a second time |
| GameManager.Reveals | server/src/gameManager.ts:91 | the host's view has one entry per player, in roster order, with that player's name |
| GameManager.RevealsDealt | server/src/gameManager.ts:91 | on a roster where every player holds a role, each entry names that role and none is `'unknown'` |
| GameManager.Registry.constructor | server/src/gameManager.ts:4 | the registry starts empty and valid |
| GameManager.Registry.GenerateUniqueCode | server/src/gameManager.ts:15-21 | the code returned is a well-formed code that is not a key of `games` |
| GameManager.Registry.CreateGame | server/src/gameManager.ts:23-36 | the new code was not in use; it now maps to a lobby with that host, that configuration and no players; every other entry is unchanged |
| GameManager.Registry.GetGame | server/src/gameManager.ts:38-40 | a room is found exactly when the upper-cased code is a key; the room found is that key's entry, carries that code and satisfies the room invariant |
| GameManager.Registry.JoinGame | server/src/gameManager.ts:42-54 | refused, changing nothing, when the room is missing, started or full; a known id changes nothing; otherwise the player is appended to that room only; the capacity invariant is kept |
| GameManager.Registry.RemovePlayer | server/src/gameManager.ts:56-62 | `None` exactly for a missing room, and then nothing changes; otherwise that room's roster loses the entries with the id and every other room is unchanged |
| GameManager.Registry.StartGame | server/src/gameManager.ts:64-76 | succeeds exactly when the room exists, the requester is its host, it is in the lobby and it is full; then it becomes started, each player keeps id and name in place and holds a role, the roles are exactly the configured ones, and no other room changes; a failure changes nothing |
| GameManager.Registry.RestartGame | server/src/gameManager.ts:78-85 | succeeds exactly for the host of an existing room, started or not; the room returns to the lobby with its roster stripped of roles, and no other room changes |
| GameManager.Registry.GetAllRoles | server/src/gameManager.ts:87-92 | returns a list exactly for the host of a started room; the list pairs every player's name with the role it holds, in roster order |
| GameManager.Registry.DeleteGame | server/src/gameManager.ts:94-96 | removes the entry of the upper-cased code and nothing else |
| Scenario.FullRoom | server/src/gameManager.ts:23-92 | a room with one mafia, one doktor and one civil admits three players, refuses a fourth and a second start, and shows its host three names whose roles are exactly one mafia, one doktor and one civil |

## Left out

- Randomness: `Math.random()` is a nondeterministic choice within bounds. Uniformity of the shuffle and of code generation is a probabilistic property and is not stated.
- GameManager.Registry.GenerateUniqueCode: the retry loop in the source stops only once a random code is free. The model requires that a free code exists (`HasFreeCode`) and picks one in a single choice. Termination of the retries is not modelled.
- GameManager.Registry.CreateGame: inherits the `HasFreeCode` precondition above. The `createdAt: new Date()` timestamp is wall-clock input and is left out of `Game`.
- GameManager.Upper: models `toUpperCase` on ASCII letters only. Other characters are left as they are, although JavaScript also maps non-ASCII letters and can change a string's length (`'ß'` becomes `'SS'`).
- Aliasing: a room is a `Game` value in the registry's map, and the methods return a copy. In the source, callers get a reference to the stored object, and their later mutations would reach the registry. `server/src/index.ts` only reads what it gets back.
- `RoleConfig` counts are `nat`. The source takes any JavaScript number the client sends (negative, fractional, `NaN`), and such values are not modelled.
- `server/src/index.ts` (sockets, broadcasts, acknowledgements, the connection-to-room map) is not part of this model. On disconnect it calls `removePlayer` with the connection id. It does not route `restart-game` or `get-all-roles`, although the client emits both. It imports a `getPlayerRole` that `gameManager.ts` does not define.
- No client code (`client/src/**`) is modelled.
- Reconnection, host reassignment, disconnect grace timers, idle expiry, room listing, duplicate-name rejection and replacing the role configuration on restart are not modelled, because `gameManager.ts` has none of them.
