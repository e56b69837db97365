# RobotRoyale simulation core in Dafny

RobotRoyale is a lane battle played on a 5 lane by 16 column board. The
player owns columns 0-7 and a wall at column 0. The AI owns columns 8-15 and
a wall at column 15. Both sides spend bolts to place robots of five kinds:

- the walker and the mini walker march and strike what blocks them;
- the ranger shoots the nearest enemy in its lane;
- the marker lasers enemies in other lanes and explodes when it dies;
- the tele-zoom jumps to three columns in front of the enemy wall (column 12 or 3) and blasts the area there once.

Once a wall is destroyed, a walker, mini walker or tele-zoom that crosses the
far edge wins the match. This project models the simulation in `script.js`:
- the combat catalogue;
- the `state` record, `reset`, and placement;
- one tick of `update`, in list order: the economy, the AI think timer, each unit's behaviour, `resolveDeaths` and `checkWin`;
- the AI opponent `aiAct`.

It has two layers:

- **Values.** `World` is the state as a datatype. Each source function is a
  function on worlds: `Place`, `Walk`, `Shoot`, `Burn`, `Teleport`,
  `StepUnits`, `ResolveDeaths`, `CheckWin`, `AiStep`, `Tick`. Lemmas state
  what each one does and prove that every tick keeps the invariant `Valid`.
- **State.** Class `RobotRoyale.Game` has the fields of `state`. Its methods
  update them in place, with the loops of the source. Each method is proved to
  leave exactly the world its value-level function computes. So every lemma
  about the functions holds for the methods.

Modules:

| module | file | contents |
|---|---|---|
| `Catalog` | catalog.dfy | unit kinds, their names, combat statistics |
| `Arena` | arena.dfy | board constants, sides, unit and wall records, `World`, `Valid`, `Evolves` |
| `Placement` | placement.dfy | `canPlace`, `makeUnit`, `placeUnit` |
| `Targeting` | targeting.dfy | the nearest-target scans of the walker and the ranger |
| `Behaviours` | behaviours.dfy | per-unit behaviours as world functions |
| `BehaviourFacts` | behaviour_facts.dfy | what each behaviour does; the unit loop keeps the world valid |
| `Resolution` | resolution.dfy | `resolveDeaths` and `checkWin` |
| `Policy` | policy.dfy | `aiAct` with its random draws as parameters |
| `Simulation` | simulation.dfy | the economy, the think timer, the whole tick |
| `RobotRoyale` | game.dfy | the `Game` class |

Behaviour of the code worth knowing (the model follows the code):
- **Marker laser.** The marker description says it burns enemies in adjacent lanes. The code burns live enemies in *any* other lane within 0.45 columns (`InLaser`).
- **Hp is never clamped.** A unit's hp is never clamped. The death pass visits each unit once. So a unit earlier in the list than a dying marker can be pushed to 0 hp or below by the marker's blast and still be alive at the end of the tick (`DeathBlastVictimSurvivesPass`). These are the only survivors at 0 hp or below (`SurvivorsWereBlastedLater`). A victim later in the list than the marker, with at most 300 hp, dies in the same pass (`ChainDeath`). A survivor still takes part in that tick's victory check, so it can win by crossing: an ai walker at the player's edge beside a dying player marker at column 0 does (`DeathBlastVictimCanStillWin`). The match is then over and no later pass marks it dead. Otherwise it acts once more in the next tick and dies in that tick's death pass.
- **Placing after the match ends.** `placeUnit` does not check whether the match is over.
- **Ranger targeting.** The ranger filters its lane and stably sorts by distance. This picks the same enemy as a scan that keeps the first enemy at the smallest distance. Both the walker and the ranger are modelled by that scan (`Targeting.Nearest`).

## Model

| member | source | states |
|---|---|---|
| Catalog.Def | script.js:11-74 | every kind costs a positive amount and has positive hp; speeds, damages and blasts are non-negative; exactly the walker, mini walker and ranger have a positive attack rate |
| Catalog.TypeNamed | script.js:223-224 | looking a kind up by name gives a kind of that name, or none when no kind has that name |
| Catalog.NameRoundTrip | script.js:223-224 | looking up a kind's own name gives back that kind |
| Arena.EnemySide | script.js:236-238 | the enemy of a side is the other side |
| Arena.InitialWorld | script.js:171-183 | the reset world is valid, running, has no units and has both walls standing |
| Arena.EvolvesTransitive | script.js:240-284 | the per-phase evolution relation (units never removed, ids, kinds, sides and lanes fixed, hp never rising, nobody revived, a teleported tele-zoom staying teleported) composes across the phases of a tick |
| Placement.NewUnit | script.js:189-213 | a new unit is alive, not teleported, at full hp equal to its maximum and positive, with no cooldown and no age; it satisfies the unit invariant in any lane on the board |
| Placement.Occupied | script.js:219 | a cell is occupied exactly when some live unit in that lane stands within 0.7 columns of it |
| Placement.CanPlace | script.js:215-220 | a placement is allowed exactly when lane and column are on the board, the column is on the placing side's half and no live unit in the lane is within 0.7 columns |
| Placement.Place | script.js:222-234 | a failed placement leaves the world unchanged; placement succeeds exactly when the name is a kind, the cell is allowed and the side can pay the cost |
| Placement.PlaceSucceeds | script.js:189-234 | a successful placement debits exactly the cost from the placing side only and appends one unit with id `nextId`, full hp, zero cooldown and age, alive, not teleported, at the requested column; `nextId` advances by one |
| Placement.PlacePreservesValid | script.js:222-234 | placement keeps the world valid, ids strictly increasing included, and leaves the existing units in place |
| Targeting.Nearest | script.js:288-298 | the target, when there is one, is a candidate in the list; `NearestIsNearest` characterises it |
| Targeting.NearestAmongIsNearest | script.js:288-298 | the scan finds no target exactly when there is no candidate; otherwise it finds a candidate whose key is minimal and strictly smaller than that of every earlier candidate |
| Targeting.NearestIsNearest | script.js:355-360 | the chosen enemy is a live enemy in the lane at minimal distance, the first such one in list order |
| Targeting.MeleeKeyIsDistance | script.js:292-294 | for a walker's candidate, the forward distance it is ranked by equals its absolute distance, which is at most one column |
| Targeting.FindTarget | script.js:289-298 | the loop with its running minimum returns exactly the nearest target |
| Behaviours.Reload | script.js:303 | the reload delay is positive and its product with the attack rate is 1 |
| Behaviours.Struck | script.js:313-319 | the wall keeps its column and is never revived; it ends at exactly 0 hp and dead exactly when the hit brings its hp to 0 or below, and otherwise loses exactly the damage |
| Behaviours.HitWall | script.js:367-376 | only the wall of the struck side changes, as `Struck` says; the other wall and every unit are unchanged |
| Behaviours.Blasted | script.js:342-347 | the unit list keeps its length; `BehaviourFacts.BlastHits` gives the effect on each unit |
| Behaviours.Lasered | script.js:381-387 | the unit list keeps its length; `BehaviourFacts.BurnHits` gives the effect on each unit |
| Behaviours.Walk | script.js:286-331 | the unit list keeps its length; its behaviour is stated by the `BehaviourFacts.Walk*` lemmas |
| Behaviours.Shoot | script.js:353-378 | the unit list keeps its length; its behaviour is stated by the `BehaviourFacts.Shoot*` lemmas |
| Behaviours.Burn | script.js:380-388 | the unit list keeps its length; its behaviour is stated by `BehaviourFacts.BurnHits` |
| Behaviours.Teleport | script.js:334-351 | the unit list keeps its length; its behaviour is stated by the `BehaviourFacts.Teleport*` lemmas |
| Behaviours.Aged | script.js:261-262 | the unit list keeps its length; `BehaviourFacts.StepUnitPhase` shows ageing keeps the world valid |
| Behaviours.Act | script.js:264-267 | the unit list keeps its length; each kind's effect is stated by the lemma of its behaviour |
| Behaviours.StepUnit | script.js:257-267 | the unit list keeps its length; a dead unit is skipped; `BehaviourFacts.StepUnitPhase` shows the world stays valid |
| Behaviours.StepUnits | script.js:256-278 | the unit loop keeps the number of units; validity is `BehaviourFacts.StepUnitsPhase` |
| BehaviourFacts.WalkEngaged | script.js:300-307 | a walker with an enemy ahead within one column never moves; when its cooldown is 0 it strikes the nearest such enemy for its damage and reloads for 1/attackRate, otherwise nothing changes |
| BehaviourFacts.WalkAtWall | script.js:309-322 | with no enemy ahead and the live enemy wall within one column ahead, a walker strikes the wall and reloads when ready, otherwise nothing changes |
| BehaviourFacts.WalkAdvances | script.js:324-330 | otherwise the walker advances by dir times speed times dt unless it stands within one column of a live enemy wall; once that wall is dead it advances unconditionally |
| BehaviourFacts.ShootReloading | script.js:354 | a ranger with positive cooldown does nothing |
| BehaviourFacts.ShootUnit | script.js:359-365 | a ready ranger with an enemy in its lane strikes the nearest one and reloads |
| BehaviourFacts.ShootWall | script.js:367-377 | a ready ranger with an empty lane strikes the enemy wall and reloads if the wall stands, and otherwise does nothing |
| BehaviourFacts.TeleportWaits | script.js:337-338 | before its delay a tele-zoom neither moves nor deals damage |
| BehaviourFacts.TeleportJumps | script.js:339-350 | on reaching its delay it is marked teleported, jumps to column 12 (player) or 3 (ai), blasts the 3 by 3 area there for 400 once, then advances |
| BehaviourFacts.TeleportAdvances | script.js:337-350 | a tele-zoom whose teleported flag is set only advances, with no blast; `TeleportedStays` keeps the flag set on every later tick |
| BehaviourFacts.BlastHits | script.js:342-347 | a blast takes exactly its damage from each live enemy within one lane and one column and leaves every other unit unchanged |
| BehaviourFacts.BurnHits | script.js:380-388 | the laser takes exactly 250 times dt from each live enemy in another lane within 0.45 columns and leaves every other unit unchanged |
| BehaviourFacts.StruckWall | script.js:313-319 | a hit keeps a wall's hp in [0, 2500]; a hit that brings hp to 0 or below leaves exactly 0 hp and a dead wall, otherwise hp drops by the damage |
| BehaviourFacts.BlastedEvolves | script.js:342-347 | a blast only lowers hp and keeps the list length |
| BehaviourFacts.LaseredEvolves | script.js:387 | the laser only lowers hp and keeps the list length |
| BehaviourFacts.WalkPhase | script.js:286-331 | a walker's action keeps the world valid and changes no liveness, bolts, timers or outcome |
| BehaviourFacts.ShootPhase | script.js:353-378 | a ranger's action keeps the world valid and changes no liveness, bolts, timers or outcome |
| BehaviourFacts.BurnPhase | script.js:380-388 | a marker's action keeps the world valid and changes no liveness, bolts, timers or outcome |
| BehaviourFacts.TeleportPhase | script.js:334-351 | a tele-zoom's action keeps the world valid and changes no liveness, bolts, timers or outcome |
| BehaviourFacts.StepUnitsPhase | script.js:256-278 | the whole unit loop keeps the world valid, kills nobody, never raises hp and touches no wall upwards |
| Resolution.ResolveAt | script.js:392-401 | the unit list keeps its length; `DyingMarkerBlasts` gives the effect of a dying marker |
| Resolution.ResolveDeaths | script.js:390-404 | the unit list keeps its length; `ResolveDeathsFacts` gives what the pass does, including who can survive it at 0 hp or below |
| Resolution.CheckWinUpTo | script.js:407-417 | only the outcome changes and a finished match stays finished; `CheckWinUpToOutcome` gives the outcome |
| Resolution.CheckWin | script.js:406-419 | only the outcome changes and a finished match stays finished; `CheckWinOutcome` gives the outcome |
| Resolution.DyingMarkerBlasts | script.js:392-401 | a live marker at 0 hp or below dies and takes exactly 300 hp from every live enemy within one lane and one column; every other unit is unchanged |
| Resolution.ResolvedUpToFacts | script.js:390-404 | the death pass changes only hp and liveness, never raises hp, revives nobody, kills every visited live unit that entered at 0 hp or below, and kills only units at 0 hp or below |
| Resolution.ResolveDeathsFacts | script.js:390-404 | after the pass every unit that entered alive at 0 hp or below is dead, no unit is revived, only hp and liveness change, and a unit still alive at 0 hp or below stood in the blast area of a marker later in the list that died in the pass |
| Resolution.ResolveAtOthers | script.js:391-401 | visiting one unit keeps every other unit's liveness, and changes another unit only when the visited unit is a dying marker and the other stands in its blast area |
| Resolution.SurvivorsWereBlastedLater | script.js:391-401 | over any prefix of the pass, the only units left alive at 0 hp or below are ones caught by the blast of a later marker that died in the pass |
| Resolution.ResolvedMonotone | script.js:391-401 | later stages of the pass never raise a unit's hp and never revive it |
| Resolution.VisitedDies | script.js:392-393 | a unit the pass reaches alive at 0 hp or below leaves the pass dead |
| Resolution.MarkerBlastReaches | script.js:394-400 | a dying marker's blast takes its full 300 hp from a live enemy in its area later in the list, which is still alive when the blast lands |
| Resolution.ChainDeath | script.js:391-401 | a live unit later in the list than a dying marker, inside its blast area and with at most 300 hp, dies in the same pass |
| Resolution.DeathBlastVictimSurvivesPass | script.js:391-398 | a player walker at column 11.5, earlier in the list than a dying ai marker at column 12, ends the pass alive at -290 hp |
| Resolution.DeathBlastVictimCanStillWin | script.js:391-417 | in a valid world with the player wall down, an ai walker past the near edge, pushed to -290 hp by the blast of a player marker at column 0 later in the list, is still alive for the victory check and wins the match |
| Resolution.CheckWinUpToOutcome | script.js:406-417 | the check changes only the outcome; the match is over exactly when it was or some unit crosses; the last crossing unit decides the winner |
| Resolution.CheckWinUpToShape | script.js:406-417 | the check never reopens a match and always sets a winner when it ends one |
| Resolution.CheckWinOutcome | script.js:406-419 | the same, over the whole unit list |
| Policy.ThreatCount | script.js:424-427 | a lane's count never exceeds the number of units; `ThreatCountPositive` says when it is positive |
| Policy.Threats | script.js:423-427 | there is one count per lane |
| Policy.ThreatCountPositive | script.js:424-427 | a lane's threat count is positive exactly when a live player walker, mini walker or tele-zoom stands in it |
| Policy.CountThreats | script.js:423-427 | the counting loop yields, for each lane, the number of threats in it |
| Policy.FirstMax | script.js:428 | the chosen index holds the largest count, and every earlier index holds strictly less |
| Policy.DangerLane | script.js:428 | the defended lane is on the board |
| Policy.AiRequest | script.js:421-445 | nothing is requested once the match is over; a request at a column other than 14 is a ranger or a marker at column 11 or 12 |
| Policy.AiStep | script.js:421-445 | the outcome, the player's bolts, both walls and both timers are unchanged; at most one unit is appended after the existing ones |
| Policy.AiStepFacts | script.js:421-445 | one policy step keeps the world valid, appends at most one unit, of the ai side, after the existing ones, pays for it, and never changes the player's bolts |
| Policy.AiDefends | script.js:430-437 | with a threat in the most threatened lane, at least 125 bolts and the drawn spot free, the ai places the drawn ranger or marker there at column 11 or 12 and pays 125 |
| Policy.DangerLaneIsMostThreatened | script.js:423-428 | when the chosen lane's count is positive, a threat stands in it, no lane holds more threats, and every earlier lane holds fewer |
| Policy.AiAttacks | script.js:439-444 | otherwise, with at least 50 bolts and the spot free, the ai places the drawn walker or mini walker at column 14 in lane floor(draw times 5), which is on the board, pays its cost, and always picks the mini walker below 100 bolts |
| Policy.AiIdles | script.js:422-444 | with the match over, or with no defence to mount and fewer than 50 bolts, the policy changes nothing |
| Simulation.Regenerate | script.js:242-249 | only the economy timer and the bolts change; bolts within the cap never drop and never pass the cap |
| Simulation.Think | script.js:243-254 | the outcome, the player's bolts, the walls and the economy timer are unchanged; at most one unit is appended after the existing ones |
| Simulation.Tick | script.js:240-284 | a finished match is left exactly as it was; a tick adds at most one unit; `TickPreservesValid` and `TickEndsOnlyByCrossing` state the rest |
| Simulation.RegenerateFacts | script.js:242-249 | with dt at most 0.1 the economy timer stays in [0, 4) and carries the elapsed time over in full; each side gains 50 bolts, capped at 600, exactly when the timer reaches 4; bolts never drop |
| Simulation.ThinkFacts | script.js:243-254 | the think timer stays in [0, 1.8); below 1.8 only the timer advances, at 1.8 it resets to 0 and the policy acts once |
| Simulation.ResolveKeepsValid | script.js:390-404 | the death pass keeps the world valid and only evolves it |
| Simulation.CheckWinKeepsValid | script.js:406-419 | the victory check keeps the world valid and changes only the outcome |
| Simulation.TickPreservesValid | script.js:240-284 | a tick with dt at most 0.1 keeps the world valid; no unit is removed or revived, hp never rises, a tele-zoom never loses its teleported flag, no wall is rebuilt, the player's bolts never drop and a finished match stays finished |
| Simulation.TickWhenOver | script.js:241 | once the match is over a tick changes nothing |
| Simulation.TeleportedStays | script.js:337-339 | a tele-zoom that has teleported is still flagged after any later tick, so its one-shot blast never fires again |
| Simulation.TickEndsOnlyByCrossing | script.js:240-284 | a tick ends a running match exactly when some unit crosses, and the winner is the side of the last crossing unit in the list |
| RobotRoyale.Game.constructor | script.js:147-160 | the initial state is the reset world |
| RobotRoyale.Game.Reset | script.js:171-183 | the state becomes the reset world, which is valid |
| RobotRoyale.Game.MakeUnit | script.js:189-213 | the new record carries the old `nextId`, the kind's full hp, zero cooldown and age; `nextId` advances and nothing else changes |
| RobotRoyale.Game.PlaceUnit | script.js:222-234 | the new state and the result are exactly `Place` of the old state; a valid state stays valid |
| RobotRoyale.Game.DamageWall | script.js:313-319 | the wall of the given side is struck as `HitWall` says; nothing else changes |
| RobotRoyale.Game.ApplyBlast | script.js:342-347 | the loop leaves the units exactly as `Blasted` says; nothing else changes |
| RobotRoyale.Game.UpdateWalker | script.js:286-331 | the new state is exactly `Walk` of the old state |
| RobotRoyale.Game.UpdateTeleZoom | script.js:334-351 | the new state is exactly `Teleport` of the old state |
| RobotRoyale.Game.UpdateRanger | script.js:353-378 | the new state is exactly `Shoot` of the old state |
| RobotRoyale.Game.UpdateMarker | script.js:380-388 | the new state is exactly `Burn` of the old state |
| RobotRoyale.Game.ResolveDeaths | script.js:390-404 | the new unit list is exactly `ResolveDeaths` of the old one; nothing else changes |
| RobotRoyale.Game.CheckWin | script.js:406-417 | the new state is exactly `CheckWin` of the old state |
| RobotRoyale.Game.AiAct | script.js:421-445 | the new state is exactly `AiStep` of the old state |
| RobotRoyale.Game.UpdateUnit | script.js:257-267 | one iteration of the unit loop: the new state is exactly `StepUnit` of the old state |
| RobotRoyale.Game.UpdateUnits | script.js:256-278 | the new state is exactly `StepUnits` over the whole list |
| RobotRoyale.Game.AdvanceClocks | script.js:242-254 | the new state is exactly `Think` of `Regenerate` of the old state |
| RobotRoyale.Game.Update | script.js:240-284 | the new state is exactly `Tick` of the old state, and it is valid |

## Left out

- Rendering, the HUD, status texts (`setStatus`), screens, the bot book, the update log and input handlers: these are presentation, not simulation.
- Animation and display fields of a unit (`anim`, `prevX`, `isMoving`, `shotTargetX`) and the descriptive catalogue fields (letter, colour, role, unlock, description, `moving`, art): the simulation never reads them.
- `isGameActive` is taken to be true: the menu screens only pause the simulation.
- The frame loop is left out. The step is never negative, since frame timestamps do not go backwards, and the loop clamps it to 0.1 seconds; together these become the precondition `0.0 <= dt <= MAX_DT` of `Update` and the tick lemmas.
- `Math.random` is left out. Each draw becomes a field of `Policy.Draws`, a number in [0, 1).
- Floating point: positions, hp, timers and the step are exact reals, so IEEE rounding is not modelled.
- Catalogue fields that the source leaves undefined for a kind, such as the ranger's speed or the marker's damage, are 0 in `Catalog.Def`. No modelled path reads them.
- RobotRoyale.Game.Update: requires a valid state. Every state reachable from `reset` is valid. Behaviour from states `reset` cannot produce is not modelled.
- RobotRoyale.Game.AiAct: requires a valid state, as above, for every unit lane to be on the board. The source's behaviour for an off-board lane is not modelled: the threat array would grow.
- Policy.CountThreats: requires every unit lane to be on the board, for the same reason.
- Catalog.TypeNamed: the source looks the kind up in a plain object (script.js:223). So an inherited key such as "constructor" or "toString" yields a truthy entry with no cost, and the placement would go ahead. The model knows only the five kind names and rejects every other name. No caller in the source passes such a name.
