# Veilborn Oath battle engine — a Dafny model

Veilborn Oath is a browser prototype. The player walks a world and steps into
encounter zones, and each zone starts a turn-based battle. In battle a party of
three (Cael, Serah Mourn, Iri Voss) fights one enemy copied from a template
table.

**Player actions.** Each living member in turn may:
- Attack.
- Use their skill: a damage multiplier, or Iri's heal.
- Unleash a Dread Art once their dread gauge is full.

When every living member has acted, the enemy strikes one living member.

**Dread.** Dealing and taking hits fill the dread gauge, which is clamped to
[0, 100].

**Ending a battle.** A felled enemy, or a fallen party, ends the battle after
a timer. The encounter cooldown of 2.2 seconds then keeps the zones quiet for
a while. Felling the boss (the Knotling Matron) disables the boss zone.

This project models that engine: the party, the enemy, the battle record, the
boss flag, the cooldown and the zone flags. It also models every operation
that changes them.

**Modules.**
- `Common`: Option, clamp and first-match search.
- `Rules`: random draws, damage, crits and dread arithmetic.
- `Roster`: game data, living members, the heal target and turn indices.
- `Zones`: zones, the zone hit test and the cooldown.
- `Battle`: the class `Game` holding the mutable state and its methods.
- `Scenarios`: small clients that use only the method contracts.

**Modelling choices.**
- Each `Math.random()` call is a parameter `u` with `0 <= u < 1`. The source's
  own formulas are applied to it: `rand(a, b) = a + u * (b - a)` and
  `pick = floor(u * n)`.
- Numbers are mathematical reals, and `Math.floor` is `.Floor`.
- `setTimeout` callbacks are the `pending` queue of `Event`s. An event is
  appended after the synchronous changes of the action that schedules it.
  `FireEvent` runs any one queued event.

Behaviour of `main.js` that is easy to misread, as the model states it:
- `endBattle` leaves `battle.phase` as it was. Only `resetRun` sets it back to
  idle.
- The action handlers check neither the phase nor whether `idx` is the current
  actor. Only the buttons built by `renderActionUI` restrict the caller.
- The enemy's health may go below zero.
- `rand(-2, 2)` stays strictly below 2. So, on mathematical reals, a plain
  hit of ATK 16 on DEF 4 deals 10 to 13, never 14.
- The enemy's crit is a single draw: below 0.06 for the boss, otherwise
  `rollCrit` (below 0.10).
- `endBattle` does not restore the party. A battle begun after a defeat
  therefore offers no actor and queues nothing until `resetRun`
  (`Scenarios.DownedPartyScenario`).

## Model

| member | source | states |
|---|---|---|
| Common.Clamp | main.js:6 | clamp pins v into [lo, hi]: v itself when inside, lo below, hi above |
| Rules.Rand | main.js:7 | rand(a, b) lies in [a, b], strictly below b when a < b |
| Rules.PickIndex | main.js:9 | pick's index floor(u * n) is a valid index for every draw |
| Rules.CalcDamage | main.js:1102-1104 | calcDamage is at least 1; it is above (atk - def) * mult - 3 and, unless it is the floor value 1, below (atk - def) * mult + 2 |
| Rules.CritScale | main.js:1225 | the crit rescaling floor(d * factor) never lowers a hit and is the floor of d * factor |
| Rules.StrikeDamage | main.js:1223-1225 | a strike deals at least 1: exactly calcDamage without a crit, at least calcDamage with one |
| Rules.DreadArtDamage | main.js:1304 | a Dread Art deals at least 1, above 2.1 * atk - def - 1 and, unless it is 1, below 2.1 * atk - def + 6 |
| Rules.RollCrit | main.js:1098-1100 | a crit roll with threshold 0 or less never succeeds, and one with threshold 1 or more always does |
| Rules.CritThresholds | main.js:1346 | every draw that crits for the boss (below 0.06) also crits under rollCrit (below 0.10), and draws of 0.10 or more crit for neither |
| Rules.AttackDread | main.js:1228 | the dread an attacker gains lies between dmg * 0.35 and dmg * 0.35 + 10, and is exactly dmg * 0.35 without a crit |
| Rules.WoundDread | main.js:1351 | the dread a struck member gains lies between dmg * 0.45 and dmg * 0.45 + 6, and is exactly dmg * 0.45 without a crit |
| Rules.AccruedDread | main.js:1086-1088 | addDread keeps the gauge in [0, 100] for every amount, and equals dread + amount when that is inside the range |
| Rules.PlainHitScenario | main.js:1102-1104 | a plain attack of ATK 16 on DEF 4 without a crit deals 10 to 13 |
| Rules.DreadArtScenario | main.js:1304 | a Dread Art of ATK 16 on DEF 4 deals 29 to 35 |
| Rules.AccrueAllFills | main.js:1086-1088 | accruals of at least step > 0 each raise the gauge to at least min(100, dread + step * count), so enough hits always fill it |
| Roster.InitialParty | main.js:44-48 | the three members start at full health with an empty gauge |
| Roster.Template | main.js:50-57 | each template has positive health and only the Knotling Matron is a boss |
| Roster.PoolFor | main.js:927 | Pools[label] or, for an unknown label, the easy pool; no pool holds the boss |
| Roster.AnyAlive | main.js:1076-1078 | anyPartyAlive fails exactly when every member has hp 0 or less, and never holds for an empty party |
| Roster.AliveIndices | main.js:1080-1084 | alivePartyIndices lists exactly the living indices, strictly increasing |
| Roster.AnyAliveIffLiving | main.js:1076-1084 | anyPartyAlive holds exactly when the living list is non-empty |
| Roster.AliveIndicesIgnoresDread | main.js:1080-1084 | a change to dread alone keeps the living list |
| Roster.HealTargetUnique | main.js:1258-1267 | at most one member is the heal target |
| Roster.HealTargetExample | main.js:1258-1267 | with health 40/120, 95/95 and 10/105 the heal goes to the third member |
| Roster.HealedHp | main.js:1270 | the healed health stays in [0, hpMax]: exactly hp + amount when that fits, hpMax when it reaches or passes hpMax |
| Roster.NextActor | main.js:1210-1215 | the next actor index is below the living count, and unchanged when nobody lives |
| Roster.ActorAfterBelow | main.js:1210-1215 | before the index wraps, the k-th advance from 0 names position k |
| Roster.RoundLength | main.js:1242-1249 | from actor 0 the index returns to 0, handing the turn to the enemy, after exactly as many actions as there are living members |
| Zones.InitialZones | main.js:348-351 | four enabled zones of positive radius; the last is the boss zone |
| Zones.Within | main.js:919-920 | the hypot test: a zone holds only players within r of its centre on each axis |
| Zones.Hit | main.js:917-920 | a disabled zone never hits; a hit lies within r of the centre on each axis |
| Zones.OriginIsQuiet | main.js:1411 | at the origin, where resetRun puts the player, none of the starting zones hits |
| Zones.FirstHit | main.js:918-921 | the zone checkZones stops at is the first enabled zone holding the player |
| Zones.BossZoneIndex | main.js:1482 | zones.find picks the first boss zone, or none |
| Zones.EncounterFor | main.js:922-930 | the boss zone sends the Knotling Matron; any other zone sends an enemy of its pool, never the boss |
| Zones.FrameDt | main.js:1457 | the frame step is the elapsed time in seconds, capped at 0.033: never more than either, and equal to one of them |
| Zones.CoolDown | main.js:1464 | one frame lowers a positive cooldown by dt but never below 0 |
| Zones.Cooled | main.js:1464 | a run of frames keeps the cooldown in [0, start] |
| Zones.CooledLowerBound | main.js:1464 | n frames lower the cooldown by at most 0.033 * n |
| Zones.CooldownOutlasts66Frames | main.js:1198 | after endBattle the 2.2 s cooldown is still positive after any 66 frames |
| Zones.CooledToZero | main.js:1464 | full-length frames bring a cooldown of at most 0.033 * n to 0 within n frames |
| Zones.CooldownLapsesAfter67Frames | main.js:1464 | with full-length frames the encounter cooldown is over after 67 frames |
| Battle.Wounded | main.js:1350-1351 | an enemy strike sets health to hp - dmg when hp >= dmg and to 0 otherwise, accrues the wound dread within [0, 100], and changes nothing else in the record |
| Battle.HealResult | main.js:1269-1271 | a heal sets the target's health to min(hp + amount, hpMax), adds 12 dread to the healer and changes nothing else |
| Battle.WithBossDisabled | main.js:1481-1484 | only the first boss zone changes, and only its flag, which becomes false; every other zone is returned as it was; encounter zones are untouched; without a boss zone nothing changes |
| Battle.BossZoneStaysDisabled | main.js:1481-1484 | the disabled zone is still the first boss zone, so disabling again changes nothing |
| Battle.Game.constructor | main.js:69-82 | the game starts with the full party, all zones enabled, no battle and no cooldown |
| Battle.Game.AlivePartyIndices | main.js:1080-1084 | the loop returns the living list |
| Battle.Game.AddDread | main.js:1086-1088 | only the member's gauge changes, to the clamped sum |
| Battle.Game.ConsumeDreadIfFull | main.js:1090-1096 | it spends exactly when the gauge is 100 or more, emptying it; otherwise nothing changes |
| Battle.HealScan | main.js:1257-1267 | the scan finds the heal target: the living member missing the most health, the first one on a tie; none when nobody lives |
| Battle.Game.AdvanceTurnToNextLiving | main.js:1210-1215 | aliveOrder is refreshed and actorIndex becomes (actorIndex + 1) mod the living count |
| Battle.Game.RenderActionUI | main.js:768-777 | an actor is offered only in the player phase with someone alive, and it is a living member: aliveOrder[actorIndex % length] |
| Battle.Game.FinishTurn | main.js:1242-1249 | the turn advances; the phase becomes the enemy's and its turn is queued exactly when the index wraps to 0 |
| Battle.Game.SettleStrike | main.js:1235-1249 | a felled enemy queues only endBattle(true), sets bossCleared exactly for the boss and leaves the turn alone; otherwise the turn advances |
| Battle.Game.PlayerAttack | main.js:1217-1250 | no-op without an enemy; otherwise the strike damage comes off the enemy, only the attacker's dread changes, then the strike settles |
| Battle.Game.PlayerSkill | main.js:1252-1294 | a damage skill attacks with its multiplier; a heal restores the heal target, gives the healer 12 dread, leaves the enemy alone and advances the turn |
| Battle.Game.PlayerDreadArt | main.js:1296-1330 | below a full gauge nothing changes; otherwise the gauge is emptied, the Dread Art damage is dealt, no dread is gained and the strike settles |
| Battle.Game.TakeHit | main.js:1350-1351 | only the target changes: hp to max(0, hp - dmg), dread accrued |
| Battle.Game.AfterEnemyStrike | main.js:1358-1366 | with nobody left only endBattle(false) is queued and the turn is untouched; otherwise the phase is the player's, actor 0, aliveOrder refreshed, nothing queued |
| Battle.Game.EnemyTurn | main.js:1332-1367 | no-op outside a battle; with nobody alive only the defeat is queued; otherwise only the picked living target is hit, then the defeat is queued or the round restarts at actor 0 |
| Battle.Game.StartBattle | main.js:1145-1178 | a fresh template copy, battle mode, player phase, actor 0, aliveOrder refreshed |
| Battle.Game.EndBattle | main.js:1180-1208 | no battle, no enemy, world mode, cooldown 2.2; the phase is not reset |
| Battle.Game.CheckZones | main.js:915-933 | nothing while the cooldown runs or a battle is on; otherwise the first hit zone decides, a cleared boss zone starts nothing, and at most one battle starts |
| Battle.Game.FindBossZone | main.js:1482 | the loop returns the first boss zone index |
| Battle.Game.Tick | main.js:1453-1506 | the cooldown runs down by the capped step, a cleared boss disables the boss zone, and in world mode the zones are checked |
| Battle.Game.ResetParty | main.js:1372-1377 | every member returns to full health with an empty gauge |
| Battle.Game.EnableZones | main.js:1392-1401 | every zone is enabled again and nothing else about it changes |
| Battle.Game.ResetRun | main.js:1379-1426 | no battle, phase idle, actor 0, no boss cleared, no cooldown, party restored, zones enabled |
| Battle.Game.FireEvent | main.js:1238 | a queued callback leaves the queue and runs on the current state: endBattle ends the battle with cooldown 2.2 and leaves party, phase, actor, aliveOrder and bossCleared alone; enemyTurn does exactly what EnemyTurn states |
| Scenarios.GnawerEncounter | main.js:1145-1178 | a fresh game meeting a Sewer Gnawer offers the turn to the first of three living members, with nothing queued |
| Scenarios.PlainAttack | main.js:1217-1250 | in a three-member round, a non-critical attack with def <= atk that leaves the enemy alive costs it at least 1 and at most atk - def + 1, keeps the living list, and passes the turn to the next member, or to the enemy (queuing its turn) after the last |
| Scenarios.TurnOrderScenario | main.js:1242-1249 | against a Sewer Gnawer, three non-critical plain attacks hand the turn to the enemy and queue exactly one enemy turn |
| Scenarios.DownedPartyScenario | main.js:1180-1208 | with the whole party down, a new battle offers no actor and queues nothing |

## Left out

- Three.js scene building, lights, materials, actor visuals, strike and hit animations, and `configureEnemyVisualForEncounter`. They are rendering only; the enemy's `tint` field is dropped with them.
- Camera shake, drift and follow, and the pulsing of zone rings and beacons in `tick`. They are presentation only.
- DOM output: `logLine`, `renderPartyPanel`, the button creation in `renderActionUI`, floating damage numbers and the overlay texts. The `victory` flag of `endBattle` only selects overlay text, so it has no effect in the model.
- Keyboard and resize listeners. `resetRun` is modelled as the operation that the R key and the reset button call.
- World movement, obstacle push-out, the player's position and the `worldReturn` save and restore. The position is an input to `CheckZones` and `Tick`.
- `Math.random` itself. Each draw is a parameter in [0, 1).
- `Math.hypot`. The distance test is the equivalent `r >= 0` and squared distance at most `r * r`.
- IEEE-754 rounding. Arithmetic is on mathematical reals.
- Timer delays of 500, 550 and 650 ms and `requestAnimationFrame`. `FireEvent` may run any queued callback, so the model covers every order they could fire in.
- The `retroFx` toggle. It only changes rendering.
- Battle.Game.PlayerSkill: a heal with nobody alive makes the source fail on a missing record before it writes anything. The model leaves the state unchanged in that case.
- Battle.Game.ResetRun: it does not cancel callbacks already queued, as in the source. The model does not state what they do after the reset beyond `FireEvent`'s contract.
