# A Dafny model of the game's orchestration core

This project models the deterministic core of a small tile-based SDL game:

- **The two orchestrators.**
  - The original `Game` (src/game.cpp) runs lifecycle broadcasts, the frame loop of entities, events and render, the interaction pass between the player, teleporters and slimes, and event dispatch by game state.
  - The newer `IngameInterface` (src/interface/in-game-interface.cpp) runs level-change and window-change broadcasts with the level-property reset and the cached teleport cell. It also handles draw order, keyboard, mouse and custom-event dispatch, and the per-frame dependency pass.
- **The two level scripts** that pass runs.
  - The tutorial's progress-driven script has a negative cooldown, eight stages gated by the player's position, dialogue batches and hard-coded slime waves.
  - The white-space level's rule wraps the player from border to border. The first wrap raises a flag, and the raised flag arms the Red Hand Throne teleporter once.
- **The small pieces they rely on.**
  - The texture wrapper's grid-to-window mapping and its ordering (src/meta/base-texture.cpp).
  - The teleporter entity (src/entities/teleporter.cpp).
  - The deferred-destruction stack (include/headers/garbage-collector.hpp).
  - The combat rule `onEntityAnimation`.
  - The process-wide level data `level::data`, as the orchestrators use it.

Every operation is a pure function over immutable datatypes. Each call an orchestrator makes on a collaborator is returned as an element of a call sequence, so the order of the calls can be stated and proved. Collaborators whose code is not part of this model are function-typed parameters:

- collision and attack predicates;
- the damage formula;
- the level-file loader;
- the view's size in tiles.

The frame rate is also a parameter.

Modules, one per file:

| module | file | models |
|---|---|---|
| `Wrappers` | wrappers.dfy | `Option` |
| `Geometry` | geometry.dfy | base-texture.cpp |
| `LevelData` | level_data.dfy | `level::data`, level names, game states |
| `Teleporter` | teleporter.dfy | teleporter.cpp |
| `GarbageCollector` | garbage_collector.dfy | garbage-collector.hpp |
| `Combat` | combat.dfy | `Game::onEntityAnimation` |
| `GameLoop` | game_loop.dfy | the rest of game.cpp |
| `Dialogue` | dialogue.dfy | the tutorial's dialogue batches |
| `TutorialScript` | tutorial_script.dfy | the tutorial script |
| `WhiteSpace` | white_space.dfy | the white-space rule |
| `IngameInterface` | ingame_interface.dfy | in-game-interface.cpp |

Points of the code the model keeps as written:

- **The cached cell.** The interface never clears its cached teleport cell (`mCachedTargetDestCoords`). `IngameInterface.CacheOutlivesTeleport` states the consequence: every later level reset files the cell again.
- **Wave 6.** Its slime wave lists cell {28, 68} twice. The model keeps the duplicate.
- **Tutorial stage 3.** The script enqueues the seven-page batch the code builds (see Findings); the eight-page batch is defined only to state what was evidently intended.
- **The teleport cell in the original `Game`.** A teleport writes the destination cell into the player's level data and then runs `onLevelChange`, which reloads the level's data before the player reads it (src/game.cpp:127-135, 186-193). The model takes the reload to replace the spawn cell, as the newer interface's comment at src/interface/in-game-interface.cpp:386 says of a write placed before the load. `GameLoop.TeleportCellOverwrittenByReload` states the consequence: the destination cell has no effect. The loop keeps this behaviour; see Findings for the intended one.

## Model

| member | source | states |
|---|---|---|
| Geometry.DestRectFromCoords | src/meta/base-texture.cpp:92-94 | The rectangle has the tile's size, and with positive tile sizes the grid cell can be recovered from it (CoordsFromDestRect is its left inverse) |
| Geometry.DestRectInjective | src/meta/base-texture.cpp:92-94 | With positive tile sizes two cells share a window rectangle if and only if they are the same cell |
| Geometry.DestRectNeighbours | src/meta/base-texture.cpp:92-94 | Horizontally adjacent cells are exactly one tile width apart on the same row, and vertically adjacent cells are one tile height apart in the same column |
| Geometry.OnWindowChange | src/meta/base-texture.cpp:33-35 | Only the window rectangle changes; it has the tile's size and maps back to the texture's own cell |
| Geometry.WindowChangeIdempotent | src/meta/base-texture.cpp:33-35 | A second window change with the same window changes nothing |
| Geometry.WindowChangeForgetsOldRect | src/meta/base-texture.cpp:33-35 | The new rectangle depends only on the cell and the window, never on the rectangle held before |
| Geometry.OnLevelChange | src/meta/base-texture.cpp:42-44 | A level change moves the texture to the spawn cell and leaves its rectangles unchanged |
| Geometry.LevelThenWindowChangeReplacesPosition | src/meta/base-texture.cpp:33-44 | After a level change and a window change, two textures with the same source region are identical, whatever cells they stood on before |
| Geometry.BeforeIsLexicographic | src/meta/base-texture.cpp:103-105 | operator< is the lexicographic order on (row, column) |
| Geometry.BeforeIrreflexive | src/meta/base-texture.cpp:103-105 | No texture is before itself |
| Geometry.BeforeTransitive | src/meta/base-texture.cpp:103-105 | operator< is transitive |
| Geometry.BeforeTrichotomy | src/meta/base-texture.cpp:103-109 | Exactly one of a < b, a == b (same cell) and b < a holds, so operator< is a strict total order up to operator== |
| Geometry.SameCellIgnoresRects | src/meta/base-texture.cpp:107-109 | operator== holds exactly when the cells are equal, however the two textures are drawn |
| LevelData.Insert | src/interface/in-game-interface.cpp:145-149 | One record is appended under the kind; every other kind, every property and the level size are untouched |
| LevelData.InsertAll | src/interface/in-game-interface.cpp:505-515 | Inserting a list of records touches no other kind, no property and not the level size |
| LevelData.InsertAllAppends | src/interface/in-game-interface.cpp:505-515 | Inserting a list appends exactly that list, in order, after the kind's existing records |
| LevelData.Erase | src/interface/in-game-interface.cpp:489 | Erasing a kind leaves it with no records; every other kind and every property are untouched |
| LevelData.EraseThenInsertAll | src/interface/in-game-interface.cpp:489-492 | Erasing a kind and then inserting a list leaves exactly that list under the kind |
| LevelData.SetProperty | src/interface/in-game-interface.cpp:133-143 | The key is bound to the new value; every other property keeps its value, no key is lost, and the records are untouched |
| LevelData.SetThenGetProperty | src/interface/in-game-interface.cpp:424-428 | Reading back an int or bool property just written yields the value written |
| Teleporter.Create | src/entities/teleporter.cpp:11-13 | A new teleporter stands on the base entity's cell, carries the configured rectangle modifier, and has no destination yet |
| Teleporter.OnLevelChange | src/entities/teleporter.cpp:15-21 | The teleporter moves to the record's cell, keeps its window rectangle and modifier, and takes the record's destination cell and level |
| Teleporter.LevelChangeReplacesTarget | src/entities/teleporter.cpp:15-21 | Nothing of the previous destination survives a level change: two teleporters that agree on their rectangles end up equal |
| Teleporter.LevelChangeIdempotent | src/entities/teleporter.cpp:15-21 | A level change applied twice with the same record is the same as one |
| Teleporter.PoolFromRecords | src/interface/in-game-interface.cpp:169 | A pool rebuilt from teleporter records has one teleporter per record, in order, each at its record's cell with its record's destination and the configured modifier |
| GarbageCollector.Empty | include/headers/garbage-collector.hpp:26 | A new collector holds nothing |
| GarbageCollector.Insert | include/headers/garbage-collector.hpp:30-32 | insert pushes exactly one wrapper, around the given instance, on top, and keeps everything below it |
| GarbageCollector.InsertAll | include/headers/garbage-collector.hpp:30-32 | Handing over a list grows the stack by the list's length |
| GarbageCollector.InsertAllInstances | include/headers/garbage-collector.hpp:30-32 | After handing over a list, the stack's instances are the old ones followed by the list, in order |
| GarbageCollector.Clear | include/headers/garbage-collector.hpp:34-39 | clear empties the stack and deletes each instance once, top of the stack first |
| GarbageCollector.DeletionOrderIsLifo | include/headers/garbage-collector.hpp:34-39 | The deletion order of clear is the insertion order reversed (last in, first out) |
| GarbageCollector.ClearEmptyIsNoOp | include/headers/garbage-collector.hpp:34-39 | Clearing an empty collector deletes nothing |
| GarbageCollector.InsertedSinceClearDeletedOnce | include/headers/garbage-collector.hpp:15-39 | Everything handed over since the last clear is deleted by the next clear, each exactly as many times as it was handed over, newest first |
| GarbageCollector.ReversePreservesMultiset | include/headers/garbage-collector.hpp:34-39 | Deleting in reverse order deletes the same multiset of instances |
| Combat.OnEntityAnimation | src/game.cpp:204-216 | The animation is never changed directly. Hit points drop by the formula's amount exactly when a damaged request meets an attacking entity, and nothing changes otherwise. The committed animation is the requested one or death, and it is death exactly when such a hit leaves zero or fewer hit points |
| Combat.HpChangesOnlyWhenHitDuringAttack | src/game.cpp:204-216 | For a formula that deals a non-zero amount, hit points change if and only if a damaged request meets an attacking entity |
| Combat.ExactThresholdIsDeath | src/game.cpp:209-213 | A hit that leaves exactly zero hit points commits death |
| Combat.SurvivedHitIsDamaged | src/game.cpp:209-213 | A hit that leaves hit points commits "damaged" |
| Combat.NoDamageOutsideAttack | src/game.cpp:204-216 | An entity that is not attacking deals no damage and never turns a request into death |
| GameLoop.Render | src/game.cpp:103-122 | A frame is always cleared first and presented last. A playing frame draws the interface first and the player just before presenting; the menu draws only the menu; every other state draws nothing |
| GameLoop.PlayerDrawnLast | src/game.cpp:103-122 | No entity is drawn outside the playing state, and the player is the last entity drawn |
| GameLoop.PlayingRenderLayers | src/game.cpp:103-122 | A playing frame draws interface, teleporters, slimes and player, in that order |
| GameLoop.CheckCallsAppend | src/game.cpp:224-234 | The interaction checks of two call lists joined are the checks of each, joined |
| GameLoop.InitiateCheck | src/game.cpp:228-233 | A slime's attack-initiate check is made once, is about that slot only, and leaves the slime's stats unchanged |
| GameLoop.PlayerHitCheck | src/game.cpp:228-233 | The player's damage check is made once, for that slot only |
| GameLoop.SlimeHitCheck | src/game.cpp:228-233 | The slime's damage check is made once, for that slot only |
| GameLoop.SlimeTurn | src/game.cpp:228-233 | A null or dying slot is skipped without any call. A live slot makes its three checks in order: attack initiation, player damaged, slime damaged. No slot is nulled |
| GameLoop.SlimeLoop | src/game.cpp:228-233 | The loop keeps the slot count, touches no earlier slot and no dead slot, and nulls no slot |
| GameLoop.SlimeLoopCalls | src/game.cpp:228-233 | Every call of the loop is about a live slot from the starting one on, in ascending slot order: slime by slime, never interleaved |
| GameLoop.DeadSlimesTriggerNothing | src/game.cpp:228-233 | With no live slot left, the loop makes no call and changes nothing |
| GameLoop.EveryLiveSlimeChecked | src/game.cpp:228-233 | Every live slot gets its attack-initiate check |
| GameLoop.ReloadLevel | src/game.cpp:127-135 | A level change loads the current level and the player and the slimes take it: the spawn cell and slime slots are the loaded ones, and the state, level and the player's fighter are kept |
| GameLoop.ReloadForgetsPlay | src/game.cpp:127-135 | A reload depends on the level only: the spawn cell and slimes held before leave no trace, and reloading twice is reloading once |
| GameLoop.OnTeleporterCollision | src/game.cpp:186-193 | A teleporter hit switches to its level and then runs the level change and the window change, in that order. The level change reloads the level, so the player's spawn and the slimes are the loaded level's. The game state and the player's fighter are untouched |
| GameLoop.TeleportCellOverwrittenByReload | src/game.cpp:186-193 | Two teleporters to the same level leave the game in the same state whatever their destination cells: the cell written before the level change is overwritten by the reload, so the player lands on the destination only if the level's own spawn is that cell |
| GameLoop.OnTeleporterCollisionCellAfterLoad | src/game.cpp:186-193 | The intended teleport: the player spawns on the teleporter's destination, on the loaded level with its slimes, with the same calls as the written collision |
| GameLoop.CellAfterLoadLandsOnTarget | src/game.cpp:186-193 | The intended teleport differs from the written one only in the spawn cell, and teleporters to different cells of one level leave different games |
| GameLoop.CollisionChecks | src/game.cpp:224-227 | The teleporter check comes first. A hit is followed at once by the teleport's calls, then the slime-collision check; without a hit the slime check follows directly. No move and no key reach the player |
| GameLoop.Interaction | src/game.cpp:224-234 | The pass starts with the teleporter check and keeps the state. It changes the level exactly when a teleporter was hit, and then the spawn and the slime slots are the loaded level's; without a hit the slot count is kept. It never moves the player or hands it a key |
| GameLoop.SlimeLoopMakesNoPlayerCall | src/game.cpp:228-233 | The slime loop neither moves the player nor hands it a key |
| GameLoop.InteractionTeleportsFirst | src/game.cpp:224-234 | On a teleporter hit the level change and window change complete before the slime-collision check and the slime loop |
| GameLoop.TeleportChecksNewSlimes | src/game.cpp:224-234 | After a teleport, every live slime slot of the loaded level gets its attack-initiate check in the same pass |
| GameLoop.HandleEntities | src/game.cpp:158-162 | Outside the playing state nothing happens. The entities move if and only if the game is playing, and the pass never changes the state |
| GameLoop.MovementBeforeInteraction | src/game.cpp:158-178 | While playing, the movement of player, teleporters and slimes comes entirely before the first interaction check |
| GameLoop.HandleWindowEvent | src/game.cpp:272-280 | A window event leads to calls if and only if it is a size change of this game's window, and then to the window-change broadcast |
| GameLoop.HandleMouseEvent | src/game.cpp:302-316 | In the menu the mouse goes to the menu, and the game takes the state the menu leaves. While playing, a button press reloads the level (level change, then window change), replacing the spawn and the slimes. Otherwise nothing happens |
| GameLoop.HandleKeyBoardEvent | src/game.cpp:286-297 | Keys count only while playing. Escape, pressed or released, ends the game and is not passed to the player; any other key goes to the player |
| GameLoop.HandleEvent | src/game.cpp:240-266 | No event does nothing, and quit ends the game. The state can change only to Exit, or in the menu to what the menu reports for a mouse event. The level and the player never change, and the slimes change only by a reload while playing. The player gets a key only while playing, and no event moves anything |
| GameLoop.Frame | src/game.cpp:90-94 | Every iteration ends by presenting the frame |
| GameLoop.FrameMovesIffPlaying | src/game.cpp:90-94 | An iteration moves the entities if and only if it starts in the playing state |
| GameLoop.FrameStateChanges | src/game.cpp:90-94 | An iteration keeps the state, ends the game, or, in the menu, takes the state the menu reports; without an event it keeps the state |
| GameLoop.Loop | src/game.cpp:90-94 | The loop runs at most one iteration per input and none once the state is Exit |
| GameLoop.StartGameLoop | src/game.cpp:85-95 | The level change and the window change are broadcast, in that order, before the first iteration |
| GameLoop.QuitEndsLoop | src/game.cpp:90-94 | A quit event ends the loop after the iteration it arrives in |
| GameLoop.EscapeEndsLoop | src/game.cpp:286-297 | Escape while playing ends the loop after that iteration, and the player never receives the key |
| GameLoop.FrameOnEscape | src/game.cpp:286-297 | The iteration in which Escape arrives ends the game and hands the player no key |
| GameLoop.NoMovementUnlessPlaying | src/game.cpp:85-95 | A loop that starts outside the playing state moves nothing as long as the menu never reports play: no other event brings the game back into play |
| GameLoop.PlayingLoopMoves | src/game.cpp:85-95 | A loop that starts in the playing state with an iteration to run moves the entities |
| GameLoop.MenuFrame | src/game.cpp:302-307 | A mouse event in the menu leaves the game exactly as it was, except for the state the menu reports |
| GameLoop.MenuStartsPlay | src/game.cpp:85-95 | The menu is the way back into play: a mouse event in the menu that the menu answers with play makes the next iteration move the entities |
| Dialogue.BatchFor | src/interface/in-game-interface.cpp:431-554 | Every stage of the tutorial enqueues a non-empty batch, and stage 3's is the seven-page batch the code builds, with no page of its own for the sign warning |
| Dialogue.Stage3AsWrittenJoinsPages | src/interface/in-game-interface.cpp:476-477 | As written, stage 3 has seven pages. The last page is "one more thing" and the sign warning run together, so the warning never has a page of its own |
| Dialogue.Stage3SignWarningOwnPage | src/interface/in-game-interface.cpp:467-480 | The corrected stage 3 has eight pages, ending with "one more thing" and then the sign warning. Joining those two pages gives back the code's batch |
| TutorialScript.InitialProgress | src/interface/in-game-interface.cpp:139 | The starting progress is -FPS halved, rounded toward minus infinity, and is negative for a positive frame rate |
| TutorialScript.UnboundingWidensRange | src/interface/in-game-interface.cpp:406-411 | Relaxing any bound to -1 (unbounded) never shuts a target out |
| TutorialScript.MinusOneBoundIsNotLiteral | src/interface/in-game-interface.cpp:406-411 | A lower bound of -1 means "no bound", not column -1: for every target and row limits, the range admits the target exactly when the lower bound is -1 or at most the target's column and the unbounded range admits it |
| TutorialScript.DoorGuardsAreTwoByTwo | src/interface/in-game-interface.cpp:454-480 | The two door guards each admit exactly the four cells of a 2x2 square |
| TutorialScript.Guard | src/interface/in-game-interface.cpp:441-554 | Every stage guard has an upper row bound that is a real bound: no cell below it passes the guard, so no stage is open to the whole level vertically |
| TutorialScript.GenericRecords | src/interface/in-game-interface.cpp:489-541 | A wave becomes one generic spawn record per cell, in order |
| TutorialScript.WaveSizes | src/interface/in-game-interface.cpp:489-541 | The waves hold 1, 3 and 6 slimes; wave 6 spawns two slimes on cell {28, 68} |
| TutorialScript.GuardedCell | src/interface/in-game-interface.cpp:413-422 | The guards test the player's pending cell when there is one, else the cell the player stands on |
| TutorialScript.DialogueCount | src/interface/in-game-interface.cpp:431-554 | No more batches are counted than calls were made |
| TutorialScript.DialogueCountAppend | src/interface/in-game-interface.cpp:431-554 | Batches enqueued over two call lists add up |
| TutorialScript.Fire | src/interface/in-game-interface.cpp:431-554 | A stage that fires advances progress to the next stage. Stage 0 makes no halt calls; every later stage first halts the player (move end invalidated, running off). Each enqueues exactly its own batch. A wave stage then reloads the slimes with its wave and resizes them; other stages make no slime call. A wave stage replaces the slime records by its wave; no other kind's records and no other property change |
| TutorialScript.Step | src/interface/in-game-interface.cpp:424-557 | The cooldown counts up silently. Stage 0 fires unconditionally. Stages 1-7 advance if and only if their guard holds, and change nothing otherwise. Progress 8 or more is final. Each advance makes exactly that stage's calls: the halt for stages 1-7, its batch, and the slime reload for wave stages only |
| TutorialScript.Run | src/interface/in-game-interface.cpp:404-559 | Running the script over any frames keeps an int progress property |
| TutorialScript.RunMonotone | src/interface/in-game-interface.cpp:424-428 | Progress never goes down and rises by at most one per frame |
| TutorialScript.FinishedScriptIsFixed | src/interface/in-game-interface.cpp:556-557 | Once past stage 7 the script never changes anything or calls anything again |
| TutorialScript.CooldownReachesZero | src/interface/in-game-interface.cpp:424-428 | From a negative progress p, exactly -p frames bring the script to stage 0 without any call and without touching the records |
| TutorialScript.CooldownNotOverEarly | src/interface/in-game-interface.cpp:424-428 | Before -p frames have passed, the progress is still negative and nothing has been called |
| TutorialScript.DialoguePerStageOnce | src/interface/in-game-interface.cpp:431-554 | Over any run, the number of dialogue batches enqueued equals the number of stages passed, so each stage's dialogue appears exactly once |
| TutorialScript.UnmetGuardHolds | src/interface/in-game-interface.cpp:441-554 | While a stage's guard never holds, the script stays at that stage and calls nothing |
| WhiteSpace.Truncate | src/interface/in-game-interface.cpp:564-579 | Assigning a double to an int drops the fraction toward zero |
| WhiteSpace.ColumnBounds | src/interface/in-game-interface.cpp:583 | The column borders lie symmetrically in the level: they sum to its width |
| WhiteSpace.RowBounds | src/interface/in-game-interface.cpp:584 | The row borders are shifted one row down: they sum to the level's height plus one |
| WhiteSpace.WrapAxis | src/interface/in-game-interface.cpp:564-579 | A coordinate wraps if and only if it is not strictly between the borders. At or past the lower border it jumps to the truncated upper one; otherwise at or past the upper border it jumps to the truncated lower one; inside, it stays |
| WhiteSpace.UpwardWrapSettles | src/interface/in-game-interface.cpp:564-579 | A jump to a fractional upper border lands strictly inside, so the next wrap leaves the cell alone |
| WhiteSpace.DownwardWrapBouncesBack | src/interface/in-game-interface.cpp:564-579 | A jump to the lower border lands at or below it, so wrapping the same cell again sends it back up |
| WhiteSpace.WrapCell | src/interface/in-game-interface.cpp:564-585 | Each axis wraps independently. Each wrap asks the throne pool for a window change, and nothing is called if and only if neither axis wraps |
| WhiteSpace.Arm | src/interface/in-game-interface.cpp:587-596 | Arming appends the hard-coded throne record and rebuilds the pool from the records. The last throne stands at {52, 43} and leads to {20, 11} of the initial break room, and the flag is kept |
| WhiteSpace.Step | src/interface/in-game-interface.cpp:561-597 | The pending cell is wrapped. The flag ends up raised if and only if it was raised or this frame wrapped. Arming happens exactly when the flag was raised at entry and no throne exists. Otherwise the thrones and records are untouched and only window changes are called |
| WhiteSpace.Run | src/interface/in-game-interface.cpp:561-597 | Running the rule over any frames keeps the flag and the throne records well formed |
| WhiteSpace.ArmingsAppend | src/interface/in-game-interface.cpp:587-596 | Armings over two call lists add up |
| WhiteSpace.OnlyWindowChangesArmNothing | src/interface/in-game-interface.cpp:564-585 | Wrap calls never arm |
| WhiteSpace.StepArmings | src/interface/in-game-interface.cpp:587-596 | A frame arms once if the flag was raised at entry and no throne exists, and never otherwise |
| WhiteSpace.ArmsAtMostOnce | src/interface/in-game-interface.cpp:561-597 | Over any run the throne is armed at most once, and never while a throne already exists |
| WhiteSpace.FirstWrapArmsOnNextFrame | src/interface/in-game-interface.cpp:562-596 | The first wrap raises the flag without arming, because the flag is read on entry; the next frame arms, whatever the player does |
| IngameInterface.Broadcast | src/interface/in-game-interface.cpp:178-206 | A broadcast sends the same request to each collaborator once, in the given order |
| IngameInterface.KindOf | src/interface/in-game-interface.cpp:152-171 | The player, the slimes and the thrones each read their own kind of records, and nobody else reads those kinds |
| IngameInterface.PoolLevelChanges | src/interface/in-game-interface.cpp:154-171 | Each pool, in order, is handed exactly the records of its own kind |
| IngameInterface.ResetProperties | src/interface/in-game-interface.cpp:133-143 | Entering the tutorial sets the progress to the initial cooldown, and entering white space lowers the border flag. Other levels keep the level file's properties, and no level's records change |
| IngameInterface.OnLevelChange | src/interface/in-game-interface.cpp:127-176 | The level data becomes the level file's, with the cached cell appended as one more player record. The level's script state is valid, the throne pool is rebuilt from the throne records (one throne per record, in order), the cache is kept, and the broadcast carries the new records |
| IngameInterface.LevelChangeResetsScript | src/interface/in-game-interface.cpp:133-143 | Whatever was stored before, a level change restarts the tutorial's cooldown and lowers the white-space flag |
| IngameInterface.LevelChangeForgetsPlay | src/interface/in-game-interface.cpp:127-176 | A level change depends only on the level and the cache: progress, flags, records and thrones held before leave no trace |
| IngameInterface.LevelChangeIdempotent | src/interface/in-game-interface.cpp:127-176 | Resetting a level twice is resetting it once: the cached cell is filed once, not once per reset |
| IngameInterface.LevelChangeOrder | src/interface/in-game-interface.cpp:150-175 | The map and view handlers are told first, then the player, then only pools, and the mixer last |
| IngameInterface.WindowChangeCoversLevelChange | src/interface/in-game-interface.cpp:127-206 | Every collaborator told of a level change, except the mixer, is also told of the window change |
| IngameInterface.Render | src/interface/in-game-interface.cpp:115-125 | The view is drawn first, and the dialogue box is drawn if and only if a dialogue is showing |
| IngameInterface.PlayerDrawnLast | src/interface/in-game-interface.cpp:11-42 | The map is drawn first and the player last, nothing is drawn over the player, and the placeholders are never drawn |
| IngameInterface.OnTeleport | src/interface/in-game-interface.cpp:382-393 | A teleport switches to the target level and caches the destination cell. The level's script state stays valid, and the map handler is told first |
| IngameInterface.TeleportFilesTargetCell | src/interface/in-game-interface.cpp:382-393 | After a teleport the new level is the level file's plus the destination cell as one more player record. The level change is broadcast before the window change |
| IngameInterface.HandleCustomEventGet | src/interface/in-game-interface.cpp:256-295 | A pending death only grays the map, and a finalized death ends the game and restores colour. A teleport response teleports, and other events change nothing. Every event is then broadcast to the player and pools in their fixed order |
| IngameInterface.DeathIsTwoPhase | src/interface/in-game-interface.cpp:395-402 | A pending death grays the map but the game goes on; the finalized death then ends it, restores colour and keeps the level |
| IngameInterface.CacheOutlivesTeleport | src/interface/in-game-interface.cpp:145-149 | The teleport's destination cell is never forgotten: a later level reset files it again in the reloaded level |
| IngameInterface.OwnKey | src/interface/in-game-interface.cpp:209-227 | A press of the return key leaves for the menu, and a press of the reset key resets the level; releases of these keys change nothing. The test key, pressed or released, enqueues the test dialogue and the game takes the state the enqueue leaves. The test dialogue is enqueued if and only if the test key was used. No key input is dispatched here |
| IngameInterface.LifecycleTakesNoInput | src/interface/in-game-interface.cpp:215-219 | A level reset's broadcasts hand no key to anybody and enqueue no dialogue |
| IngameInterface.KeyDispatch | src/interface/in-game-interface.cpp:230-240 | The player hears the key if and only if the game is playing, and the dialogue box if and only if a dialogue is showing |
| IngameInterface.HandleKeyBoardEvent | src/interface/in-game-interface.cpp:208-241 | The state after the interface's own keys, the test dialogue's enqueue included, decides who hears the key: the player exactly when playing, the box exactly when a dialogue shows. When a dialogue shows, the game takes the state the box leaves it in; otherwise the own keys' result stands. The test dialogue is enqueued exactly for the test key, and script state stays valid |
| IngameInterface.KeyCallsFacts | src/interface/in-game-interface.cpp:208-241 | Besides the two handlers, only the dispatch hands out the key |
| IngameInterface.ReturnMenuWithholdsKey | src/interface/in-game-interface.cpp:209-234 | Pressing the return key while playing leaves for the menu before the dispatch, so the player does not get that key; releasing it does reach the player |
| IngameInterface.DialogueTestIgnoresKeyDirection | src/interface/in-game-interface.cpp:209-227 | The test dialogue fires on release as well as on press, while the return and reset keys act on the press only: their release leaves the interface as any other key's would |
| IngameInterface.TestDialogueRedirectsKey | src/interface/in-game-interface.cpp:220-238 | The enqueue runs before the dispatch: if it opens the dialogue, the test key goes to the dialogue box and not to the player; if it leaves the game playing, the player gets the key |
| IngameInterface.HandleMouseEvent | src/interface/in-game-interface.cpp:243-251 | The player hears the mouse if and only if the game is playing |
| IngameInterface.PlayerMovesAfterSlimes | src/interface/in-game-interface.cpp:331-360 | In the interaction pass the player moves after the slimes, and its update is the last call |
| IngameInterface.HandleLevelSpecifics | src/interface/in-game-interface.cpp:362-374 | The tutorial level runs one script step, with its calls addressed to the player, the box and the slimes. The white-space level runs one wrap step on the pending cell. Other levels do nothing. The state, level and cache are kept by the level rules themselves |
| IngameInterface.HandleDependencies | src/interface/in-game-interface.cpp:311-326 | A playing frame runs interaction, the level script, sound and then the dialogue box, and the game takes the state the box leaves. A dialogue frame runs only the dialogue box, whose resulting state the game takes. Other states do nothing. The level is never changed here |
| IngameInterface.DialoguePausesScript | src/interface/in-game-interface.cpp:311-326 | While a dialogue shows, only the state the dialogue box reports changes: progress, flags, records and thrones are kept, and only the dialogue box is called |
| IngameInterface.TutorialProgressMonotone | src/interface/in-game-interface.cpp:311-326 | Through the interface the tutorial's progress never goes down, rises by at most one per frame, and moves only while playing |
| IngameInterface.TutorialCooldownAfterEntry | src/interface/in-game-interface.cpp:133-143 | After entering the tutorial, FPS/2 playing frames (rounded up) bring the script to stage 0 with no call on the way |
| IngameInterface.CooldownFromInitialProgress | src/interface/in-game-interface.cpp:424-428 | From the initial progress, -InitialProgress(fps) frames reach stage 0 without any call |

## Left out

- **SDL and rendering.**
  - Windows, the renderer, textures, fonts and the audio mixer are not modelled; their calls appear only as elements of the call sequences.
  - src/components/text-area.cpp and the timers (src/timers/fps-display-timer.cpp, include/headers/timers.hpp) are not part of this model.
  - main.cpp is not part of this model. Neither is `Game::start`, `Game::initialize` or the destructor, nor `IngameInterface`'s constructor, `initialize` or `deinitialize`.
- **Memory.** Allocation, `delete`, the `delete instance` on quit, and the singleton instances are not modelled; a wrapper's `terminate` is modelled as the instance it deletes.
- **Collaborators whose code is not part of this model.** Each is a parameter or an uninterpreted effect:
  - the collision and attack-register predicates;
  - `calculateFinalizedPhysicalDamage`;
  - `NextAnimationData::update`;
  - entity movement and animation;
  - the dialogue box's contents handling;
  - level-file loading, taken as a function from level name to level data;
  - the configured type ids, taken as any injective choice (`KindOf`);
  - the frame rate;
  - the view's size in tiles.
- **Level data.**
  - The internals of `level::data` are taken to append on insert.
  - Which player record is at index 0 (the one the player reads) is not claimed: the cached cell is appended after the level file's records.
- **Pools.**
  - An entity pool's `onLevelChangeAll` is taken to rebuild the pool with one entity per record; only the throne pool is tracked.
  - The other pools' entities, and the player's own state in the new orchestrator, are not tracked.
- **Game state.** The value is an abstract enum: the bit composition `kLoading | kMenu` written by the return key is a single value, and the loading transition is not modelled.
- **Drawing.** The view handler is taken to run the interface's draw lambda once per render, after its own drawing.
- **Level load in the old orchestrator.** Its interface's `onLevelChange` is not part of this model. What it loads for a level (the player's spawn cell and the slime slots) is a parameter (`Rules.load`), taken to depend on the level only and to replace whatever the player's level data held. The teleporters of that orchestrator are not tracked.
- **Hidden state changes.** The menu's mouse handler and the dialogue box's handlers may change the game state. Their resulting state is an input (`FrameInput.menu`; in the interface, `enqueued` for the test dialogue's enqueue and `boxAfter` for the box's key and update handlers), so the model promises nothing about which state they choose. The tutorial script's own enqueues are followed in the same frame by the box's update, whose resulting state the frame takes. The view and map handlers' key and mouse handling is taken to leave the state alone.
- **Wave 6.** The wave spawns two slimes on {28, 68}. The source shows no intent either way, so this is kept as written and only proved, not reported as a finding.
- Geometry.DestRectFromCoords: the window position `coords * tile + offset` is computed over unbounded integers. In the source the fields of `SDL_Point` and `SDL_Rect` are 32-bit `int`, and overflow there is undefined behaviour, so the left inverse holds in the source only while the position fits in 32 bits.
- Geometry.DestRectInjective: proved over unbounded integers; the same 32-bit range condition applies in the source.
- WhiteSpace.ColumnBounds: the borders are computed in `double` in the source and as exact reals here, so the stated sum of the borders holds exactly only in the model; floating-point rounding is not modelled.
- WhiteSpace.RowBounds: as ColumnBounds, exact reals instead of `double`.
- GameLoop.Frame: its ensures states only that the frame is presented last. Movement and state change across a frame are stated by FrameMovesIffPlaying and FrameStateChanges.
- GameLoop.Loop: its ensures bounds the iteration count only. What a run calls is stated by QuitEndsLoop, EscapeEndsLoop, NoMovementUnlessPlaying and MenuStartsPlay.
- GameLoop.NoMovementUnlessPlaying: it holds only for runs in which the menu never reports play; MenuStartsPlay states the other side.
- GarbageCollector.InsertAll: its ensures states the length only. The contents are stated by InsertAllInstances.
- TutorialScript.Run: its ensures states only that the progress property survives. The run's behaviour is stated by the Run lemmas listed above.
- WhiteSpace.Run: its ensures states only well-formedness. The arming count is stated by ArmsAtMostOnce.

## Findings

| source | as written | input that shows it | evidently intended | confidence | as-written member | corrected member |
|---|---|---|---|---|---|---|
| src/game.cpp:186-193 | The teleporter's destination cell is written into the player's level data before `onLevelChange`, whose interface load replaces that data before the player reads it | Touching any teleporter whose destination differs from its level's spawn cell: the player spawns on the level's cell, not the destination | The player spawns on the teleporter's destination, as the write at line 190 shows | not executed | GameLoop.TeleportCellOverwrittenByReload | GameLoop.OnTeleporterCollisionCellAfterLoad |
| src/interface/in-game-interface.cpp:476-477 | The last two dialogue literals of tutorial stage 3 have no comma between them, so they are joined into one page | Reaching tutorial stage 3 (the second arch door): the batch has 7 pages, the last reading "... (Oh, one more thing.)... (Make sure you read the sign ...)" | 8 pages, the sign warning on a page of its own like every other utterance | not executed | Dialogue.Stage3AsWrittenJoinsPages | Dialogue.Stage3SignWarningOwnPage |
