# Vesania match server — a Dafny model

This project models the in-memory PvP match server of the Vesania web app and the
earlier single-match prototype server, and proves properties of both.

- **Match registry.** A `Registry` object owns two tables. `matches` maps a
  six-symbol match code to its match record. `subscribers` maps a match code to
  its set of subscriber callbacks.
  - `CreateMatch` opens a `waiting` match for a host under a fresh code.
  - `JoinMatch` seats a guest and makes the match `active`.
  - `ApplyAction` validates and then applies one move: `PUNCH`, `KICK`, `BLOCK`
    or `HEAL`.
  - `Subscribe`, the unsubscribe closure and `NotifySubscribers` form the
    broker that fans snapshots out to callbacks.
- **Combat rules.** These are pure functions (`Combat.Resolve`, `Combat.Act`,
  `Combat.Join`) that specify the registry's methods. The imperative methods are
  proved equal to them. Every property below is proved about these functions:
  - the invariant `Combat.Consistent`: hp in [0, 30], guard ≥ 0, `waiting` iff
    no guest, `finished` iff a winner iff a knocked-out player;
  - turn alternation;
  - log growth;
  - a lifecycle that never moves backward.
- **Prototype server.** `ProtoServer.Server` holds the prototype's global match
  record. `HandleAction` is the logic of its action handler: validation, damage,
  log append and turn flip. It is proved equal to the pure function
  `ProtoServer.Handle`.

Files:
- `types.dfy` is the data model.
- `combat.dfy` holds the rules and the match lifecycle.
- `codes.dfy` generates match codes.
- `match_server.dfy` holds the registry and the broker.
- `proto_server.dfy` models the prototype.

Three behaviours of the code worth stating:
- `createMatch` accepts any host name, including the empty one. The HTTP route
  rejects a missing or empty name before trimming it, so a name made only of
  spaces reaches `createMatch` as the empty string.
- The turn is passed to the loser even on the winning move.
- `joinMatch`'s "Match is full" check can never fire on a consistent match.
  `Combat.Join` proves this: a waiting match never has a second player.

## Model

| member | source | states |
|---|---|---|
| `GameTypes.Other` | apps/web/lib/game-server/match.ts:73 | the target of a move is the other slot: `p1` for `p2` and `p2` for `p1` |
| `Combat.Damage` | apps/web/lib/game-server/match.ts:77-93 | an attack's raw damage is 5 for `PUNCH` and 8 for `KICK` |
| `Combat.Resolve` | apps/web/lib/game-server/match.ts:76-112 | the action switch: names are kept; an attack leaves the attacker unchanged; `BLOCK` and `HEAL` leave the target unchanged; every action keeps both slots within hp [0, 30] and guard ≥ 0 |
| `Combat.AttackAbsorbs` | apps/web/lib/game-server/match.ts:77-100 | an attack deals raw damage minus `min(raw, guard)`; hp and guard are floored at 0 and the guard drops by the full raw damage; the log line has a "(N blocked)" clause exactly when the target had guard up, with N the absorbed amount |
| `Combat.BlockStacks` | apps/web/lib/game-server/match.ts:101-105 | `BLOCK` adds 5 to the actor's guard with no upper bound and leaves its hp alone |
| `Combat.HealCapped` | apps/web/lib/game-server/match.ts:106-111 | `HEAL` sets hp to `min(30, hp + 3)`, leaves the guard alone, and logs the amount healed, which is between 0 and 3 |
| `Combat.NewMatch` | apps/web/lib/game-server/match.ts:28-38 | a new match is waiting and satisfies the match invariant |
| `Combat.Join` | apps/web/lib/game-server/match.ts:48-57 | a join is refused as not accepting players exactly when the status is not `waiting`; "Match is full" never happens on a consistent match, so a consistent waiting match is always joined; a join seats the guest with 30 hp and no guard, keeps the host's slot, the turn, the id and the winner, keeps the invariant and makes the match `active` |
| `Combat.Act` | apps/web/lib/game-server/match.ts:67-122 | an action is refused with "not active" when the status is not `active`, and with "not your turn" when the player is not on turn; otherwise it succeeds, keeps the match invariant and keeps the match id |
| `Combat.ActOutcome` | apps/web/lib/game-server/match.ts:114-122 | after a successful action the turn passes to the other player and the old log is a prefix of the new one, one line longer (two on a win); the match finishes exactly when the target's hp is 0, and then the actor is the winner and the last line announces it |
| `Combat.ActEffects` | apps/web/lib/game-server/match.ts:72-112 | a successful action puts exactly `Resolve`'s actor and target into the two slots and appends its log line; attacks leave the actor's slot unchanged and `BLOCK`/`HEAL` leave the target's slot unchanged |
| `Combat.NoDoubleMove` | apps/web/lib/game-server/match.ts:69-70 | right after a successful action, any further action by the same player is refused |
| `Combat.FinishedIsFinal` | apps/web/lib/game-server/match.ts:51-69 | a finished match accepts neither a join nor an action |
| `Combat.FinishedIffKnockout` | apps/web/lib/game-server/match.ts:114-119 | in a consistent match, `finished` ⇔ a winner is set ⇔ some player's hp is 0 |
| `Combat.Perform` | apps/web/lib/game-server/match.ts:48-126 | a successful join or action keeps the invariant and the match id |
| `Combat.PerformAdvances` | apps/web/lib/game-server/match.ts:48-126 | one successful operation moves the lifecycle at most one step along waiting → active → finished, keeps the host name and strictly extends the log |
| `Combat.Run` | apps/web/lib/game-server/match.ts:48-126 | any sequence of joins and actions, with refused ones changing nothing, keeps the invariant (hp in [0, 30], guard ≥ 0, winner iff finished) |
| `Combat.RunMonotone` | apps/web/lib/game-server/match.ts:48-126 | over any sequence of operations the status never moves backward and the log is never truncated; a finished match never changes again |
| `Combat.ExampleBout` | apps/web/lib/game-server/match.ts:48-122 | a concrete bout: join, a 5-damage punch, a refused second move, a block, then a fully absorbed punch that logs "(5 blocked)" |
| `MatchCodes.AlphabetShape` | apps/web/lib/game-server/match.ts:14 | the code alphabet has 32 distinct symbols, all letters other than I and O or digits other than 0 and 1 |
| `MatchCodes.CodeIsUnambiguous` | apps/web/lib/game-server/match.ts:13-20 | no match code contains 0, O, 1 or I |
| `MatchCodes.PickIndex` | apps/web/lib/game-server/match.ts:17 | `floor(random * 32)` is a valid alphabet index for every random value in [0, 1) |
| `MatchCodes.CodeAt` | apps/web/lib/game-server/match.ts:13-20 | the code built from six draws is well-formed: six alphabet symbols |
| `MatchCodes.Attempt` | apps/web/lib/game-server/match.ts:23-26 | each retry of `createMatch` produces a well-formed code |
| `MatchCodes.GenerateCode` | apps/web/lib/game-server/match.ts:13-20 | the loop returns a six-symbol code over the alphabet, namely the one its six draws select |
| `MatchServer.JoinIn` | apps/web/lib/game-server/match.ts:49-57 | joining fails with "not found" exactly when the code is not in the table; a stored consistent waiting match is always joined; a successful join keeps the invariant and the id |
| `MatchServer.ActIn` | apps/web/lib/game-server/match.ts:67-68 | an action fails with "not found" exactly when the code is not in the table; a successful action keeps the invariant and the id |
| `MatchServer.Advance` | apps/web/lib/game-server/match.ts:72-122 | the in-place switch, win check and turn flip produce exactly `Combat.Act`'s result |
| `MatchServer.Registry.constructor` | apps/web/lib/game-server/match.ts:10-11 | both tables start empty and nothing has been delivered |
| `MatchServer.Registry.CreateMatch` | apps/web/lib/game-server/match.ts:22-42 | the code is the first generated one not already in use. The new match is waiting, with `p1 = {host, 30, 0}`, no `p2`, `turn = p1`, no winner and exactly one log line. Exactly that key is added; other matches, subscribers and deliveries are unchanged |
| `MatchServer.Registry.GetMatch` | apps/web/lib/game-server/match.ts:44-46 | returns the stored match exactly when the code is present; the result carries its own code and is consistent |
| `MatchServer.Registry.JoinMatch` | apps/web/lib/game-server/match.ts:48-60 | errors come in the order not found, not accepting, full, and a refused join changes nothing. On success `p2 = {guest, 30, 0}`, the status is `active`, the turn is unchanged, one line is appended, the stored match is replaced and every subscriber of that match is notified once |
| `MatchServer.Registry.ApplyAction` | apps/web/lib/game-server/match.ts:62-126 | the result is `Combat.Act` on the stored match, or "not found". A rejection changes neither the matches nor the subscribers nor the deliveries. On success the stored match is replaced and every subscriber of that match is notified once with the new state |
| `MatchServer.Registry.Subscribe` | apps/web/lib/game-server/match.ts:130-135 | adds the callback to the match's set, creating the set when absent, and returns that callback's unsubscribe handle; matches are untouched |
| `MatchServer.Registry.Unsubscribe` | apps/web/lib/game-server/match.ts:137-143 | removes exactly that callback and deletes the match's entry when its set becomes empty. A second call (callback already gone) leaves the table unchanged; matches are untouched |
| `MatchServer.Registry.NotifySubscribers` | apps/web/lib/game-server/match.ts:146-153 | each callback currently registered for the match is invoked exactly once with the given state, and no callback of another match is invoked |
| `ProtoServer.StatusCode` | src/proto/server.ts:37-39 | the handler answers 200 exactly when the action is accepted |
| `ProtoServer.DamageOf` | src/proto/server.ts:42 | damage is 8 exactly for `KICK`, and 5 for every other type |
| `ProtoServer.Handle` | src/proto/server.ts:34-50 | a refused request leaves the state unchanged; an accepted one returns the new state; both hp values stay in [0, 30] |
| `ProtoServer.RejectionOrder` | src/proto/server.ts:37-39 | wrong match id gives 404 first, then a missing player or type gives 400, then a player other than the one on turn gives the 400 "Not your turn" naming the player on turn; a request passing all three is accepted; every refusal leaves the state unchanged |
| `ProtoServer.AcceptedEffect` | src/proto/server.ts:41-46 | an accepted action reduces the target's hp by 8 (KICK) or 5, floored at 0. The actor's hp is unchanged, the turn passes to the target and the log gains exactly one line |
| `ProtoServer.NoDoubleMove` | src/proto/server.ts:39-46 | a player who just acted is refused if they act again |
| `ProtoServer.NoFinishedState` | src/proto/server.ts:39-46 | a player at 0 hp stays at 0 under a further attack, the attack is still accepted and the turn still alternates |
| `ProtoServer.Serve` | src/proto/server.ts:34-50 | any sequence of requests keeps both hp values in [0, 30] |
| `ProtoServer.ServeKeepsLog` | src/proto/server.ts:44-46 | over any request sequence the match id is unchanged; the log is never truncated and grows by at most one line per request |
| `ProtoServer.Server.constructor` | src/proto/server.ts:19-25 | the initial record: match `demo`, `p1` to move, both at 30 hp, empty log |
| `ProtoServer.Server.HandleAction` | src/proto/server.ts:34-50 | the handler's reply and the new record are exactly `Handle` of the old record, so the hp bounds are kept |

## Left out

- `MatchServer.Registry.CreateMatch` takes `Math.random` as a parameter `rnd` (its n-th value, in [0, 1)). It requires that some retry yields a free code. While a free code exists, the source's retry loop ends only with probability 1. Matches are never removed from the table, so once all 32^6 codes are in use the source's loop never ends; the requires excludes exactly that state.
- Callback bodies and the streaming route are not modelled. A callback is an opaque identity. A notification is recorded as a `Delivery` of a snapshot in the `delivered` history.
- `MatchServer.Registry.NotifySubscribers` does not fix the order in which callbacks are invoked. JavaScript iterates a `Set` in insertion order. A callback that changes the subscriber set during the loop is not modelled.
- Aliasing: the source returns and hands to callbacks the stored match object itself, which later moves mutate. The model returns and delivers value snapshots.
- Log lines are values holding the numbers and names a line is built from (`LogEntry`, `ProtoLog`), not formatted strings.
- hp, guard and damage are unbounded integers, not JavaScript numbers. hp and damage stay small. The guard grows without bound under repeated `BLOCK`, and JavaScript's 2^53 limit on exact integers is not modelled.
- Concurrency and per-match locking are not modelled. The server is single-threaded module state.
- HTTP route adapters are not modelled. That covers JSON parsing, trimming, upper-casing, status-code mapping, the stream route and the `GET` state route. In the prototype it also covers the Express and CORS setup, `updatedAt = Date.now()` and `app.listen`.
- `ProtoServer.Handle` models `player` and `type` as strings or absent. Non-string JSON values are not modelled. A truthy non-string `type` would make the handler throw at the log line after the hp update.
- The `GAME` constants object in apps/web/lib/game-server/constants.ts is not part of this model. The match server hard-codes the same numbers.
