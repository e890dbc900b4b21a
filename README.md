# Mr. Kim's Architects, modelled in Dafny

A model of the game logic of *mr.kim_architects*. The player is a junior
architect who has to collect a blueprint and the materials for Mr. Kim's
house over four mini-games. Each finished build is sent to Mr. Kim, who
grades it with a verdict tag.

The project has six modules:

- **Catalog** (`catalog.dfy`): the item catalog `ITEMS_DB`, the five
  blueprint-part ids `BLUEPRINT_TYPES` and the four zones `LOCATIONS` of
  `constants.ts`.
- **Progression** (`progression.dfy`): the `GameState` record and the App
  component's handlers. Each handler is a pure `GameState -> GameState`
  function, because each one is a React functional updater:
  - collect, consume, stun and toggle;
  - level start, next phase and start game;
  - handover completion;
  - the verdict logic of the build submission.
- **SceneRules** (`scene_rules.dfy`): the entities of the GameScene
  component and what one frame does to them, as functions. This covers movement,
  bribes, employees and the interaction, the chaser, the catcher, breakout
  and whack-a-mole.
- **Scene** (`scene.dfy`): the GameScene component as a class.
  - Its fields are the refs the animation callback reads and writes.
  - Its methods are:
    - the setup effect;
    - the key listeners;
    - `launchBall`, `handleEmployeeDrop` and `handleMoleClick`;
    - one method per section of `animate`.
  - Each method follows the statements of its source block: `forEach`
    loops become `while` loops with invariants. The methods for one
    section of `animate` are proved to produce the state that the matching
    SceneRules function describes. `Tick` and `Frame` compose those
    results: the predicate `Ticked` states, level by level, what one
    unpaused frame does to every field.
- **Wiring** (`wiring.dfy`): the scene's callbacks `onCollectItem`,
  `onStunned` and `onConsumeItem` applied to the App state in order.
- **Common** (`common.dfy`): `Option` and `Abs`.

Choices that shape the model:

- **Callbacks.** The GameScene's calls into the App are recorded in an
  `events` field, in the order raised. Wiring applies them to a `GameState`.
- **Randomness and time.** Every `Math.random()` draw, the `Date.now()`
  reading and the animation-frame time are method parameters, in call
  order. The draws of one frame are grouped, e.g. `CatchRoll` and `MoleRoll`.
- **Distances.** `Math.hypot(..) < r` is written as a squared distance
  `DistSq(..) < r*r`.
- **The chaser's step.** The normalised pursuit step needs a square root,
  so the caller supplies it as the parameter `step`. It is applied only when
  the chaser is farther than 5.
- **Stale closure.** The frame loop is restarted only when `level`,
  `isHandover` or `isPaused` changes (components/GameScene.tsx:604-607), and
  each frame schedules the same `animate` closure again. So every frame of a
  run reads the values captured when that run started:
  - `level`, `inventory`, `isPaused` and `isHandover` from the props;
  - `kimDistracted` and `kimFrozenUntil` from the component state.

  These captured values are the `Snapshot` parameter, the same for every
  frame of a run. The writes go to the component's fields, which the run
  never reads back.

## Model

| member | source | states |
|---|---|---|
| Catalog.Lookup | constants.ts:29-59 | an id resolves exactly when it is a catalog key, and the entry found carries that id |
| Catalog.EntryIdIsKey | constants.ts:29-59 | every catalog entry's id field equals its key |
| Catalog.PartIdsDistinct | constants.ts:61 | the part list has exactly five pairwise-distinct ids, so five distinct part ids form a set of five |
| Catalog.PartsAreKeyItems | constants.ts:31-35 | every part id is a catalog key whose entry has category `key` |
| Catalog.BribeAndBlueprintCategories | constants.ts:38-40 | the bribe is `special`, the blueprint is `key`, and neither is a part |
| Catalog.StructureItems | constants.ts:43-46 | a catalog entry is `structure` exactly when it is brick, concrete, glass or steel |
| Catalog.LocationsCoverZones | constants.ts:63-68 | the zone map has exactly the four keys OFFICE, SITE, INTERIOR and MAINTENANCE |
| Progression.AddToInventory | App.tsx:86-89 | the item is appended exactly when its id is not held or it stacks (structure, or id `bribe`); otherwise the inventory is unchanged |
| Progression.CollectItem | App.tsx:79-118 | new inventory is the dedup rule plus the aggregated blueprint when five part entries are reached at level 1; hasBlueprint is set by the aggregation or a `blueprint` item; status becomes HANDOVER exactly on aggregation or on a blueprint above level 1; nothing else changes |
| Progression.CountId | components/GameScene.tsx:362 | the number of entries with an id never exceeds the number of entries |
| Progression.CountIdPositive | components/GameScene.tsx:362 | the count is positive exactly when some entry has the id, so `some` and the filtered length agree |
| Progression.CollectHeldItem | App.tsx:86-89 | a held non-stacking item leaves the inventory as it was, except for the aggregation's own append |
| Progression.CollectKeepsPartsDistinct | App.tsx:86-100 | collecting a catalog item keeps part ids unique in the inventory |
| Progression.AggregationNeedsAllFiveParts | App.tsx:92-100 | with unique part ids, the aggregation fires only when all five distinct parts are held afterwards |
| Progression.CollectingParts | App.tsx:86-100 | from an inventory without parts at level 1, collecting fewer than five distinct parts appends exactly them and changes nothing else |
| Progression.CollectingFiveParts | App.tsx:92-110 | the fifth distinct part appends the parts and the aggregated blueprint, sets hasBlueprint and status HANDOVER |
| Progression.RepeatedPartReaggregates | App.tsx:92-110 | holding all five parts and the blueprint, a repeated part adds a second blueprint and schedules the handover again |
| Progression.HandoverComplete | App.tsx:120-142 | level 2, zone SITE and status CRAFTING whatever the level before; inventory, strikes, selection and blueprint flags are kept |
| Progression.HandoverThenPassIsLevelThree | App.tsx:120-142 | from any level, a handover followed by a pass lands on level 3 in BRIEFING |
| Progression.FirstIndex | App.tsx:148 | the index is the first entry with the id, and -1 exactly when no entry has it |
| Progression.ConsumeItem | App.tsx:145-156 | an absent id leaves the state unchanged; otherwise exactly the first matching entry is removed, the prefix and suffix around it are kept in order, and nothing else changes |
| Progression.ConsumeRemovesOneInstance | App.tsx:145-156 | the count of the consumed id drops by one and the count of every other id is unchanged |
| Progression.ConsumeKeepsPartsDistinct | App.tsx:145-156 | consuming keeps part ids unique |
| Progression.Stunned | App.tsx:160-170 | strikes go up by one; reaching five clamps to exactly five with GAME_OVER; the result is at most five; nothing else changes |
| Progression.StunnedMonotone | App.tsx:160-170 | within the ceiling a stun never lowers the strike count |
| Progression.RemoveId | App.tsx:176 | no entry with the id remains, the others are exactly the entries with a different id, and the list never grows |
| Progression.ToggleCraftItem | App.tsx:172-181 | a selected id is removed entirely, an unselected item is appended, so the id is selected afterwards exactly when it was not before; nothing else changes |
| Progression.ToggleKeepsIdsDistinct | App.tsx:172-181 | toggling keeps selected ids pairwise distinct |
| Progression.ToggleTwice | App.tsx:172-181 | toggling twice restores whether the id is selected and every other entry's membership, and restores the selection exactly when the id was absent |
| Progression.LevelZone | App.tsx:71 | level 1 is OFFICE, 2 SITE, 3 INTERIOR, and every other level MAINTENANCE |
| Progression.StartLevel | App.tsx:67-73 | status EXPLORING in the zone of the current level, nothing else changes |
| Progression.StartGame | App.tsx:32-56 | a successful opening call resets to the initial BRIEFING session at level 1; a failed one keeps the state |
| Progression.NextPhase | App.tsx:58-65 | BRIEFING goes to LEVEL_START, VICTORY and GAME_OVER restart the game, and any other status is kept |
| Progression.RestartFromTerminal | App.tsx:58-65 | from a terminal status the next phase is a fresh session (level 1, no strikes, empty inventory) or, without a connection, no change |
| Progression.PassZone | App.tsx:231-233 | after a pass the zone is the next level's zone from level 2 on, and stays otherwise |
| Progression.PassZoneAgreesWithLevelStart | App.tsx:226-234 | after a pass below VICTORY, the next level start keeps the zone the pass chose |
| Progression.WithoutAny | App.tsx:254 | the entries kept are exactly those not equal to a submitted item |
| Progression.Resolve | App.tsx:217-255 | `[합격]`: level + 1, VICTORY above 5 or the next zone. Otherwise `[불합격]`: strikes + 1, GAME_OVER at 5 or more. Neither: level and strikes kept. In every case the selection is cleared, hasBlueprint is false, progress is 0 and submitted entries leave the inventory |
| Progression.SubmitBuild | App.tsx:183-263 | without a selected blueprint only the status becomes BRIEFING; a selected bribe uses the scripted reply; otherwise the reply decides, and a thrown call leaves EVALUATING |
| Progression.Contains | App.tsx:217-243 | a tag is found only in a text at least as long as it, and always when the text starts with it |
| Progression.RejectedSubmitKeepsState | App.tsx:184-191 | a rejected submission keeps inventory, level, strikes, selection and hasBlueprint |
| Progression.BribeReplyPasses | App.tsx:209-210 | the scripted bribe reply contains the pass tag |
| Progression.BribeForcesPass | App.tsx:201-227 | with a bribe selected the gateway's reply does not matter, the level goes up by one and the strikes are kept |
| Progression.FallbackIsNeutral | services/geminiService.ts:50-53 | the gateway's error fallback carries neither tag, so level and strikes are kept |
| Progression.ResolvedSubmitRemovesSubmitted | App.tsx:254 | a submitted item leaves the inventory, an unsubmitted held item stays, and filtering any split of the inventory and joining the halves gives the same result |
| Progression.ResolveKeepsPartsDistinct | App.tsx:254 | the resolution keeps part ids unique |
| Progression.FailVerdictStrikes | App.tsx:235-240 | a fail below the ceiling keeps strikes at most five and ends the game exactly at the fifth strike |
| SceneRules.Clamp | components/GameScene.tsx:347-348 | the result lies in [5,95] and equals the input inside it |
| SceneRules.MoveStep | components/GameScene.tsx:326-357 | no movement above level 3 or with dt = 0; a moved position is inside the field; y is 90 at levels 2 and 3; at level 1 y is the clamped old y when up and down cancel |
| SceneRules.MoveKeys | components/GameScene.tsx:326-357 | with dt non-zero at levels up to 3: right alone moves x by +speed, left alone by -speed, and at level 1 down and up move y the same way, each clamped to [5,95]; speed is 0.05 dt at level 1 and 0.08 dt at levels 2 and 3; opposite keys cancel, and with every pair cancelled the player stays put |
| SceneRules.VerticalKeysOnlyAtLevelOne | components/GameScene.tsx:334-337 | away from level 1 the up and down keys do not change the move |
| SceneRules.KeptBribes | components/GameScene.tsx:370-390 | never more bribes than before |
| SceneRules.KeptBribesMembers | components/GameScene.tsx:376-384 | a bribe is kept exactly when it was on the floor and out of reach |
| SceneRules.PickupPartitions | components/GameScene.tsx:376-384 | kept and picked-up bribes add up to all of them; with none picked up the floor is unchanged |
| SceneRules.KeptBribesAppend | components/GameScene.tsx:376-384 | the survivors of a concatenation are the survivors of each part, in order |
| SceneRules.FindEmployee | components/GameScene.tsx:398 | a found employee is on the staff list and has the id |
| SceneRules.FindEmployeeNone | components/GameScene.tsx:398 | nothing is found exactly when no employee has the id |
| SceneRules.FirstSleeperNear | components/GameScene.tsx:410 | a found index is a sleeping employee within 15 |
| SceneRules.FirstSleeperNearIsFirst | components/GameScene.tsx:410 | no earlier employee sleeps within 15, and nothing is found exactly when nobody does |
| SceneRules.WakeAll | components/GameScene.tsx:421 | the staff list keeps its length |
| SceneRules.WakeAllWakes | components/GameScene.tsx:421 | exactly the employees with the id are woken, every other field of every employee is kept |
| SceneRules.DropEvents | components/GameScene.tsx:271-274 | a drop id outside the catalog raises nothing; a catalog id raises one collect of that entry |
| SceneRules.Staff | components/GameScene.tsx:164-190 | six employees are spawned |
| SceneRules.StaffLayout | components/GameScene.tsx:166-187 | employees 0..4 are sleeping NORMAL holders of the parts in order, the sixth is the sleeping BIM manager 99 holding the bribe |
| SceneRules.StaffAsleepAndFound | components/GameScene.tsx:164-190 | every spawned employee sleeps and the lookup of its id finds exactly it |
| SceneRules.StaffDrops | components/GameScene.tsx:164-190 | the five NORMAL employees drop the five parts, all `key` items, and the BIM manager drops the bribe |
| SceneRules.FindByDistinctId | components/GameScene.tsx:398 | with distinct ids, the lookup of an employee's id finds that employee |
| SceneRules.Bribes | components/GameScene.tsx:192-202 | four bribes are spawned |
| SceneRules.InteractionKeepsStaff | components/GameScene.tsx:392-442 | the interaction never adds, removes or moves an employee, never puts one back to sleep, and wakes only the first sleeper in range while the key is held |
| SceneRules.NormalWakesAtOnce | components/GameScene.tsx:429-440 | a NORMAL first sleeper wakes on the first held frame with progress 0 |
| SceneRules.BimAccumulates | components/GameScene.tsx:416-428 | a BIM first sleeper gains 0.1 dt progress, wakes at 100 with progress back at 0, and otherwise the staff is unchanged |
| SceneRules.Release | components/GameScene.tsx:397-406 | the interaction state is kept or has progress and target cleared, and it is always kept without a target |
| SceneRules.InteractStep | components/GameScene.tsx:397-442 | without the action key only the release applies; a wake-up happens only with the key held, and leaves progress 0 with the woken employee as the target |
| SceneRules.ReleaseResets | components/GameScene.tsx:397-406 | a missing, far (20 or more) or awake target clears progress and target |
| SceneRules.ChaseStep | components/GameScene.tsx:444-476 | a chase frame raises nothing, one stun, or one bribe consumption |
| SceneRules.ChaseRules | components/GameScene.tsx:444-476 | frozen or distracted: nothing changes; far: only the chaser moves; caught with a bribe: consume one, chaser home, frozen 2000 ms; caught without: one stun, both sent home |
| SceneRules.ChaseReadsOnlySnapshot | components/GameScene.tsx:444-476 | with the captured deadline past and no captured distraction, the deadline held in state does not affect the chase; a far chaser takes its step; a run whose captured inventory held no bribe stuns on capture and never distracts, however many bags were picked up since |
| SceneRules.Distracted | components/GameScene.tsx:360-367 | once distracted stays distracted; it becomes set exactly when three bribes are held and the captured flag was clear |
| SceneRules.StealthStep | components/GameScene.tsx:359-476 | the level-1 rules after the move never clear the distraction, never add bribes or staff, and only append callbacks |
| SceneRules.FallKindOf | components/GameScene.tsx:482-483 | good below 0.4, bad in [0.4,0.6), bonus in [0.6,0.8), bribe bag from 0.8 |
| SceneRules.Spawned | components/GameScene.tsx:481-492 | an item is appended only when the draw is below 0.03, at y = -10, x in [5,95), speed in [0.02,0.05) |
| SceneRules.Gain | components/GameScene.tsx:498-511 | catches never lower the score and only a bad item gains nothing |
| SceneRules.Fall | components/GameScene.tsx:496 | an item keeps its column, speed and kind, and never rises for a non-negative speed and dt |
| SceneRules.Caught | components/GameScene.tsx:497 | a caught item is always above the bottom edge, so an item is never both caught and lost |
| SceneRules.CatchStep | components/GameScene.tsx:495-521 | one item adds at most one survivor and never lowers the score |
| SceneRules.CatchFold | components/GameScene.tsx:494-524 | at most as many survivors as items, and the score never goes down |
| SceneRules.CatchFoldSurvivors | components/GameScene.tsx:519-521 | every survivor is uncaught and above the bottom edge |
| SceneRules.CatchFoldAppend | components/GameScene.tsx:495-522 | the items are resolved front to back: the fold of a concatenation continues from where the first part ended |
| SceneRules.CatchStepShift | components/GameScene.tsx:495-522 | resolving one item ignores what was kept or raised before it |
| SceneRules.CatchOne | components/GameScene.tsx:496-521 | a fallen item in the band is resolved with its gain and callbacks; one outside it scores nothing and survives exactly when it is still above the bottom edge (y < 100) |
| SceneRules.CatchEvents | components/GameScene.tsx:507-517 | one catch raises at most three callbacks |
| SceneRules.CatchEventsOwn | components/GameScene.tsx:504-510 | a catch stuns exactly for a bad item and hands over a bribe exactly for a bribe bag |
| SceneRules.RewardExactlyInWindow | components/GameScene.tsx:514-517 | a catch gives the brick and blueprint reward exactly when the new score is in [100,110) |
| SceneRules.CatchEventsGrants | components/GameScene.tsx:514-517 | one catch grants the blueprint once inside the window and never outside it |
| SceneRules.BonusFromNinetySkipsReward | components/GameScene.tsx:501-517 | a bonus catch at 90 reaches 110 with no reward |
| SceneRules.BadCatchInWindowRegrants | components/GameScene.tsx:508-517 | a bad catch at score 100 raises a strike and the reward again |
| SceneRules.RewardAtMostOnceWithoutBadCatches | components/GameScene.tsx:495-522 | with no bad item caught, a frame grants the blueprint at most once, and only with a score of 100 or more |
| SceneRules.BrickAt | components/GameScene.tsx:228-234 | each fresh brick is standing |
| SceneRules.Wall | components/GameScene.tsx:225-236 | the wall has 32 bricks |
| SceneRules.WallLayout | components/GameScene.tsx:225-236 | brick k is the standing brick of row k/8 and column k%8, and no two bricks share an id |
| SceneRules.BrickIdsDistinct | components/GameScene.tsx:229 | ids r*10+c differ for different cells of the 4-by-8 wall |
| SceneRules.Launched | components/GameScene.tsx:283-291 | the launched ball is active with dy = -0.06 at its old position, speed in [0.05,0.07), heading right exactly when the side draw exceeds 0.5 |
| SceneRules.Bounce | components/GameScene.tsx:534-545 | the ball stays active exactly when it was and is below 100; on the paddle dy points up with its magnitude kept and dx, after the side-wall flip, gains the spin (x - paddle x) * 0.002; elsewhere dy flips at the top and dx at the side walls |
| SceneRules.Flight | components/GameScene.tsx:530-545 | the ball moves by its velocity times dt before bouncing |
| SceneRules.BallCanLeaveField | components/GameScene.tsx:531-534 | the position is never clamped: a ball right of 99 can end beyond 100 |
| SceneRules.BrickFold | components/GameScene.tsx:547-555 | kept plus hit bricks never exceed the wall, and dy is flipped once per hit |
| SceneRules.BrickStep | components/GameScene.tsx:548-555 | a standing brick whose box (6 across, 4 up and down) holds the ball is counted as a hit and flips dy; any other standing brick is kept with dy unchanged; a fallen brick changes nothing |
| SceneRules.BrickFoldKeeps | components/GameScene.tsx:548-555 | a brick is kept exactly when it is standing and not hit; with only standing bricks kept and hit add up to the wall |
| SceneRules.WallEvents | components/GameScene.tsx:557-560 | the wall reward is raised exactly on the frame the wall goes from non-empty to empty, and it is the tile collect followed by the blueprint collect |
| SceneRules.MoleKindOf | components/GameScene.tsx:573-574 | the mole is a resident exactly when the wide draw is above 0.8 and the pick is at least 2/3; with the wide draw above 0.8 it is a crack exactly when the pick is below 1/3 (a leak in between); with the wide draw at most 0.8 it is a crack exactly when the pick is below 0.5 and a leak otherwise |
| SceneRules.MoleSpawn | components/GameScene.tsx:572-583 | a mole is appended exactly when the spawn draw is below 0.02 and fewer than five are live; the new mole has id `now`, the kind MoleKindOf of the draws, the cell floor(3 col), floor(3 row) inside the 3-by-3 grid, age 0 and life 2000; five stays an upper bound |
| SceneRules.SpawnCellUnchecked | components/GameScene.tsx:572-583 | a mole can spawn on an occupied cell |
| SceneRules.AgeFold | components/GameScene.tsx:585-596 | survivors and strikes never exceed the moles |
| SceneRules.AgeOne | components/GameScene.tsx:586-596 | a live mole survives aged by dt; an expired one leaves, costing exactly one strike unless it is a resident |
| SceneRules.AgeFoldAppend | components/GameScene.tsx:585-596 | the moles are aged front to back: survivors keep their order and the strikes of the two parts add up |
| SceneRules.AgeFoldSurvivors | components/GameScene.tsx:586-589 | the moles kept are exactly the input moles, aged by dt, that are still within their lifespan |
| SceneRules.AgeFoldAccounts | components/GameScene.tsx:585-596 | every mole is kept, costs a strike, or is an expired resident that leaves without one: kept plus strikes equal the number of moles exactly when no resident expires |
| SceneRules.RemoveMole | components/GameScene.tsx:308 | never more moles than before |
| SceneRules.RemoveMoleMembers | components/GameScene.tsx:308 | exactly the moles with other ids are kept |
| SceneRules.ClickEvents | components/GameScene.tsx:294-307 | a resident is a strike; any other click raises a reward exactly when the new score is 20 or more, and that reward is the receipt collect followed by the blueprint collect |
| Scene.GameScene.constructor | components/GameScene.tsx:92-139 | the initial refs: player at (50,70), chaser at (10,10), idle ball, empty lists, zero scores and clock |
| Scene.GameScene.Setup | components/GameScene.tsx:142-242 | scores, lists, distraction and interaction are reset. Level 1 spawns the staff, four bribes and the player at (50,70). Levels 2 and 3 put the paddle at (50,90). Level 3 builds the wall with an idle ball at (50,85). Other fields are kept |
| Scene.GameScene.Reset | components/GameScene.tsx:143-161 | the per-level resets |
| Scene.GameScene.KeyDown | components/GameScene.tsx:246-254 | paused: nothing; otherwise the key is held, Space sets the action flag, and at level 3 Space launches an idle ball |
| Scene.GameScene.KeyUp | components/GameScene.tsx:255-260 | the key is released and Space clears the action flag |
| Scene.GameScene.LaunchBall | components/GameScene.tsx:283-291 | the ball becomes the launched ball |
| Scene.GameScene.EmployeeDrop | components/GameScene.tsx:271-280 | the drop's collect is raised and a BIM freezes the chaser until now + 5000 |
| Scene.GameScene.MoleClick | components/GameScene.tsx:294-311 | the score rises for a repair, the click's callbacks are raised and the mole is removed |
| Scene.GameScene.Move | components/GameScene.tsx:326-357 | the player is at the MoveStep position and stays on the field |
| Scene.GameScene.Distract | components/GameScene.tsx:360-367 | the distraction flag follows Distracted |
| Scene.GameScene.PickUpBribes | components/GameScene.tsx:370-390 | the floor keeps the KeptBribes survivors and one bribe collect is raised per picked-up bag |
| Scene.GameScene.ReleaseTarget | components/GameScene.tsx:397-406 | the interaction state is the Release of the old one |
| Scene.GameScene.Interact | components/GameScene.tsx:392-442 | interaction state, drop callbacks and freeze are those of InteractStep |
| Scene.GameScene.Chase | components/GameScene.tsx:444-476 | player, chaser, freeze and callbacks are those of ChaseStep |
| Scene.GameScene.Lure | components/GameScene.tsx:360-390 | distraction, then bribe pickup |
| Scene.GameScene.Confront | components/GameScene.tsx:392-476 | the interaction, then the chase on the interaction's result; the chase tests the snapshot's deadline, so a BIM freeze written in this frame does not stop it |
| Scene.GameScene.TickStealth | components/GameScene.tsx:360-476 | the level-1 frame is distraction, pickup, interaction and chase composed in that order |
| Scene.GameScene.StealthFrame | components/GameScene.tsx:326-476 | the level-1 state after the frame is StealthStep applied to the old state with the player at its MoveStep position |
| Scene.GameScene.TickCatcher | components/GameScene.tsx:479-525 | items, score and callbacks are the CatchFold of the spawned list at the paddle |
| Scene.GameScene.TickBreakout | components/GameScene.tsx:528-568 | an idle ball changes nothing; an active one is the Flight with the BrickFold's dy, the wall keeps the BrickFold survivors, then the stun and the wall reward are raised |
| Scene.GameScene.CatcherFrame | components/GameScene.tsx:326-525 | the paddle is at its MoveStep position, then items, score and callbacks are the CatchFold of the spawned list at the new paddle |
| Scene.GameScene.BreakoutFrame | components/GameScene.tsx:326-568 | the paddle is at its MoveStep position, then the ball, wall and callbacks are those of TickBreakout at the new paddle |
| Scene.GameScene.TickMoles | components/GameScene.tsx:570-599 | moles are the AgeFold of the spawned list, with one stun per expired non-resident |
| Scene.GameScene.Frame | components/GameScene.tsx:315-602 | paused: only the clock moves; otherwise dt is 0 on the first frame and the elapsed time after, and the frame's effect is `Ticked` for that dt |
| Scene.GameScene.Tick | components/GameScene.tsx:325-600 | `Ticked`: during handover nothing changes; each level touches only its own state and only appends callbacks; level 1 is StealthStep after the move, level 2 the CatchFold at the moved paddle, level 3 the Flight and BrickFold at the moved paddle with the stun and the wall reward, level 4 the AgeFold of the spawned moles, and levels 0 and below only move |
| Scene.GameScene.TickLevelOne | components/GameScene.tsx:326-476 | `Ticked` for level 1 outside the handover |
| Scene.GameScene.TickOtherLevels | components/GameScene.tsx:325-600 | `Ticked` for every level but 1 outside the handover |
| Scene.ResolveFalling | components/GameScene.tsx:494-524 | the loop computes the CatchFold |
| Scene.BreakWall | components/GameScene.tsx:547-555 | the loop computes the BrickFold |
| Scene.AgeMoles | components/GameScene.tsx:585-598 | the loop computes the AgeFold |
| Scene.SpawnStaff | components/GameScene.tsx:166-187 | the loop builds Staff |
| Scene.SpawnBribes | components/GameScene.tsx:193-200 | the loop builds Bribes |
| Scene.BuildWall | components/GameScene.tsx:225-236 | the nested loops build Wall |
| Scene.FlyBall | components/GameScene.tsx:530-545 | the statements compute Flight |
| Wiring.ApplyEvent | App.tsx:353-358 | a scene callback never changes level, zone, selection or blueprint progress |
| Wiring.ApplyEvents | App.tsx:353-358 | no callbacks leave the App state as it is, and a single callback is its handler |
| Wiring.ApplyEventsAppend | App.tsx:353-358 | applying two batches in turn is applying their concatenation |
| Wiring.EventsKeepLevel | App.tsx:353-358 | no sequence of scene callbacks changes level, zone, selection or blueprint progress |
| Wiring.StrikesStayWithinFive | App.tsx:160-170 | from five or fewer strikes, scene callbacks keep strikes between the old count and five |
| Wiring.StunsCount | App.tsx:160-170 | below the ceiling, n stuns add n strikes and keep the status |
| Wiring.CollectBribe | App.tsx:86-89 | a bribe is always appended, whatever is held |
| Wiring.BribesStack | App.tsx:86-89 | n picked-up bags add n bribe entries and change neither status, blueprint flag nor strikes |
| Wiring.BlueprintAfter | App.tsx:79-118 | above level 1, any collect followed by the blueprint collect starts the handover with the blueprint held |
| Wiring.WallRewardStartsHandover | components/GameScene.tsx:557-560 | above level 1, clearing a non-empty wall starts the handover with the blueprint held |
| Wiring.ClickRewardStartsHandover | components/GameScene.tsx:300-305 | above level 1, a repair that brings the score to 20 or more starts the handover with the blueprint held |
| Wiring.CatchRewardStartsHandover | components/GameScene.tsx:514-517 | above level 1, a catch in the reward window starts the handover with the blueprint held |
| Wiring.FailTagFails | App.tsx:235 | the fail tag carries no pass tag |
| Wiring.GameOverIsOverwritten | App.tsx:101-110 | at level 2 with four strikes, a stun ends the game, but a blueprint later in the same frame turns the status into HANDOVER with five strikes |
| Wiring.SixthStrike | App.tsx:235-240 | after such a handover, a failed blueprint submission raises the strikes to six |

## Where the code and the design disagree

The model follows the code in each of these cases. Each one is stated by a
lemma.

- **The catcher reward window.** The reward test is `score >= 100 &&
  score - 10 < 100`, that is, a new score in [100,110). A +20 bonus from 90
  or a +30 bribe bag from 80 skips the reward (`BonusFromNinetySkipsReward`).
  A bad catch while the score sits in the window grants it again
  (`BadCatchInWindowRegrants`).
- **Handover completion always sets level 2,** from any level
  (`HandoverComplete`). So a pass after a later handover lands on level 3
  (`HandoverThenPassIsLevelThree`).
- **The whack-a-mole reward** is raised on every repair click whose new
  score is 20 or more, not once (`ClickEvents`).
- **The aggregation has no guard against a repeat.** A part collected again
  after the aggregation adds a second blueprint and schedules the handover
  once more (`RepeatedPartReaggregates`).
- **The breakout ball is reflected but not clamped.** Its position can leave
  [0,100] (`BallCanLeaveField`).
- **GAME_OVER is not final within a frame.** A later blueprint in the same
  frame sets HANDOVER (`GameOverIsOverwritten`). A failed submission after
  that handover gives six strikes (`SixthStrike`), because the submit path
  does not cap strikes.
- **The mole spawn cell is not checked for occupancy** (`SpawnCellUnchecked`).
- **Level 1 reads only what its frame loop captured.** The distraction test,
  the bribe check on capture and the freeze test all read captured values
  (`ChaseReadsOnlySnapshot`). Within one run of the loop:
  - bags picked up never distract the chaser and never buy immunity;
  - a run that started with a bribe in the inventory spends one on every
    capture, even after the App has none left;
  - neither the BIM's 5000 ms freeze nor a bribe's 2000 ms freeze stops
    the chaser.

  The loop restarts, with fresh values, only on a change of level, handover
  or pause.
- **The submit filter removes by reference.** `inventory.filter(i =>
  !itemsToBuild.includes(i))` compares references. The selected items are
  the same objects as the inventory entries they came from, so the model
  uses value equality. As a result it removes every entry equal to a
  submitted item (`WithoutAny`).

## Left out

- The Gemini client (services/geminiService.ts) is modelled only through
  its results. Its reply, or the error it throws without a session, is the
  `Reply` parameter of `SubmitBuild`. Only the fallback
  string is modelled (`FallbackIsNeutral`). The missing-key failure of the
  opening call is the `connected` flag of `StartGame`.
- Rendering and UI are presentation: every JSX section, Character,
  LevelStartModal, MrKimDialog, BuildingPreview, CraftingTable and the
  StatusPanel health bar. This includes the render-section buttons of
  App.tsx.
- React and timer plumbing is not modelled:
  - `useState` mirrors of the refs; the model keeps only the ref values;
  - effect re-subscription and `requestAnimationFrame`;
  - the 4000 ms `setTimeout` waits and the nag `setInterval`.

  A timer firing is an explicit call, e.g. `HandoverComplete`.
- Messages, nag texts, Mr. Kim's mood, the `isMoving`/`direction` flags,
  `handleNavigate` and the empty `handleBlueprintWork` are cosmetic or do
  nothing.
- Chase: the normalised step `(dx/dist, dy/dist) * 0.02 dt` is a
  parameter, because it needs a square root. The model does not check that
  the step has length 0.02 dt.
- Chase: one `Date.now()` reading per frame is assumed. The source reads
  the clock separately in the chase and in `handleEmployeeDrop`.
- React StrictMode runs updaters twice in development. The model runs each
  updater once.
- In-place mutation is modelled as value updates, so the model does not
  capture these aliasing effects:
  - The catcher's `item.y +=` and the moles' `m.lifeTime +=` also change
    the objects held by the `fallingItems` and `moles` state mirrors. Only
    rendering reads those.
  - The aggregation's `newState.inventory.push` (App.tsx:99) mutates
    `prev.inventory` itself when the part was not appended, because
    `newState` is a shallow copy. `CollectItem` leaves its input state as it
    was. Only a second run of the same updater, as under StrictMode, would
    see the difference.
- `SubmitBuild` resolves against the state it is given. The source reads
  level, strikes and zone from the render-time `gameState` after a 4000 ms
  wait. No other handler runs during an evaluation because the scene is not
  rendered then, so the two agree.
- Numbers are unbounded reals and integers. JavaScript's floating point is
  not modelled.
