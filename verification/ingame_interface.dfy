/** The newer orchestrator, IngameInterface (src/interface/in-game-interface.cpp):
    the lifecycle broadcasts with the level-property reset and the cached
    spawn cell, the draw order, the keyboard, mouse and custom-event
    dispatch, and the per-frame dependency pass that runs the level scripts
    of TutorialScript and WhiteSpace. Calls into collaborators are returned
    as a sequence so their order can be stated. */
module IngameInterface {
  import opened LevelData
  import opened Wrappers
  import Geometry
  import Teleporter
  import TS = TutorialScript
  import WS = WhiteSpace

  /** The collaborators the interface calls: the two handlers, the player,
      the entity pools, the projectiles, the dialogue box and the mixer. */
  datatype Dep =
    | MapHandler | ViewHandler | Player
    | LightBulb | PlaceholderInteractable | Laptop | MewO | Cat(n: nat)
    | PlaceholderTeleporter | RedHandThrone | Slime
    | Pentacle | DialogueBox | Mixer

  /** What is asked of a collaborator. */
  datatype Op =
    | Draw
    | LevelChange                             // onLevelChange (player record not modelled)
    | LevelChangeAll(records: seq<Record>)    // onLevelChangeAll(level::data.get(kind))
    | ClearProjectiles                        // PentacleProjectile::onLevelChangeAll()
    | LevelChangeTo(level: LevelName)         // Mixer::onLevelChange(level)
    | WindowChange
    | KeyboardInput | MouseInput | CustomGet
    | UpdateAnimation | InitiateAnimation | Move
    | HandleInstantiation | HandleTermination | HandleSfx
    | UpdateProgress
    | EnqueueTest                             // the configured test dialogue
    | EnqueueBatch(batch: seq<string>)
    | ChangeLevel(level: LevelName)
    | MoveEndInvalidated | RunningOff
    | PendingCell(cell: Geometry.Point)       // the player's pNextDestCoords after the wrap rule

  datatype Call = Invoke(dep: Dep, op: Op)

  /** The SDL key events the interface tells apart; `down` distinguishes
      SDL_KEYDOWN from SDL_KEYUP. */
  datatype Key = ReturnMenu | LevelReset | DialogueTest | OtherKey(code: nat)

  /** The custom events handled on GET. */
  datatype CustomEvent =
    | TeleportResponse(target: Teleporter.Target)   // kResp_Teleport_GTE_Player
    | DeathPending                                   // kReq_DeathPending_Player
    | DeathFinalized                                 // kReq_DeathFinalized_Player
    | OtherCustom(code: nat)

  /** The interface's state: the global game state, the map handler's level
      and grayscale flag, the level data, the cached spawn cell of the last
      teleport (mCachedTargetDestCoords) and the Red Hand Throne pool. */
  datatype Interface = Interface(
    state: GameState, level: LevelName, store: Store, cached: Option<Geometry.Point>,
    grayscale: bool, thrones: seq<Teleporter.Teleporter>)

  /** What the interface reads but does not own: the frame rate, the level
      files (what IngameMapHandler::onLevelChange loads into level::data),
      the view's size in tiles, and what a throne is built from. */
  datatype Env = Env(
    fps: int, load: LevelName -> Store, viewTileCountWidth: real, viewTileCountHeight: real,
    throneBase: Geometry.Texture, throneModifier: Geometry.Rect)

  /** Every level file files only teleporter records under the throne kind
      (Teleporter::onLevelChange casts each to that variant). */
  ghost predicate LoaderOk(env: Env) {
    forall l :: Teleporter.AllTeleporterRecords(Get(env.load(l), RedHandThroneKind))
  }

  /** What the level scripts read: a tutorial level holds an integer
      progress, a white-space level a boolean border flag and teleporter
      throne records. */
  predicate Valid(ui: Interface) {
    && (ui.level == Tutorial0 ==> TS.HasProgress(ui.store))
    && (ui.level == WhiteSpace ==> WS.WellFormed(WS.World(ui.store, ui.thrones)))
  }

  /** `op` sent to each of `deps`, in order. */
  function Broadcast(deps: seq<Dep>, op: Op): (r: seq<Call>)
    ensures |r| == |deps|
    ensures forall i :: 0 <= i < |r| ==> r[i] == Invoke(deps[i], op)
    ensures forall c :: c in r ==> c.op == op
  {
    seq(|deps|, i requires 0 <= i < |deps| => Invoke(deps[i], op))
  }

  const Cats: seq<Dep> := [Cat(0), Cat(1), Cat(2), Cat(3), Cat(4), Cat(5), Cat(6), Cat(7)]

  /** The entity pools that take their records on a level change, in the
      order the interface visits them. */
  const Pools: seq<Dep> :=
    [LightBulb, PlaceholderInteractable, Laptop, MewO] + Cats +
    [PlaceholderTeleporter, RedHandThrone, Slime]

  predicate IsPool(d: Dep) {
    d in Pools
  }

  /** The level-data kind each collaborator reads (only the player and the
      pools read any). The configured type ids are not part of this model;
      any injective choice serves. */
  function KindOf(d: Dep): (k: Kind)
    ensures d == Player <==> k == PlayerKind
    ensures d == Slime <==> k == SlimeKind
    ensures d == RedHandThrone <==> k == RedHandThroneKind
  {
    match d
    case Player => PlayerKind
    case Slime => SlimeKind
    case RedHandThrone => RedHandThroneKind
    case LightBulb => OtherKind(0)
    case PlaceholderInteractable => OtherKind(1)
    case Laptop => OtherKind(2)
    case MewO => OtherKind(3)
    case Cat(n) => OtherKind(4 + n)
    case PlaceholderTeleporter => OtherKind(12)
    case _ => OtherKind(13)
  }

  /** Each pool gets the records of its own kind. */
  function PoolLevelChanges(store: Store): (r: seq<Call>)
    ensures |r| == |Pools|
    ensures forall i :: 0 <= i < |r| ==>
      r[i] == Invoke(Pools[i], LevelChangeAll(Get(store, KindOf(Pools[i]))))
    ensures forall c :: c in r ==> c.op.LevelChangeAll?
  {
    seq(|Pools|, i requires 0 <= i < |Pools| => Invoke(Pools[i], LevelChangeAll(Get(store, KindOf(Pools[i])))))
  }

  /** The broadcast of onLevelChange (lines 127-176): the handlers first
      (the map handler loads the level data), then the player, every pool
      with its records, the projectiles, and the mixer last. */
  function LevelChangeCalls(level: LevelName, store: Store): seq<Call> {
    [Invoke(MapHandler, LevelChange), Invoke(ViewHandler, LevelChange), Invoke(Player, LevelChange)] +
    PoolLevelChanges(store) +
    [Invoke(Pentacle, ClearProjectiles), Invoke(Mixer, LevelChangeTo(level))]
  }

  /** The order of onWindowChange (lines 178-206). */
  const WindowChangeOrder: seq<Dep> := [MapHandler, ViewHandler, Player] + Pools + [Pentacle, DialogueBox]

  const WindowChangeCalls: seq<Call> := Broadcast(WindowChangeOrder, WindowChange)

  /** The level properties a level starts with: the tutorial's progress
      counter, or the white-space border flag lowered. */
  function ResetProperties(s: Store, level: LevelName, fps: int): (t: Store)
    ensures t.records == s.records && t.tileDestCount == s.tileDestCount
    ensures level == Tutorial0 ==> IntProperty(t, ProgressKey) == Some(TS.InitialProgress(fps))
    ensures level == WhiteSpace ==> BoolProperty(t, BorderTraversedKey) == Some(false)
    ensures level != Tutorial0 && level != WhiteSpace ==> t == s
  {
    match level
    case WhiteSpace => SetProperty(s, BorderTraversedKey, BoolValue(false))
    case Tutorial0 => SetProperty(s, ProgressKey, IntValue(TS.InitialProgress(fps)))
    case _ => s
  }

  /** onLevelChange: reload the level data, reset the level's properties,
      file the cached spawn cell as one more player record, rebuild the
      throne pool, and broadcast. The cache is left in place. */
  function OnLevelChange(ui: Interface, env: Env): (r: (Interface, seq<Call>))
    requires LoaderOk(env)
    ensures Valid(r.0)
    ensures r.0.state == ui.state && r.0.level == ui.level && r.0.cached == ui.cached
    ensures r.0.grayscale == ui.grayscale
    ensures ui.cached.Some? ==>
      Get(r.0.store, PlayerKind) == Get(env.load(ui.level), PlayerKind) + [Generic(ui.cached.value)]
    ensures ui.cached.None? ==> Get(r.0.store, PlayerKind) == Get(env.load(ui.level), PlayerKind)
    ensures forall k :: k != PlayerKind ==> Get(r.0.store, k) == Get(env.load(ui.level), k)
    ensures Teleporter.AllTeleporterRecords(Get(r.0.store, RedHandThroneKind))
    ensures r.0.thrones ==
      Teleporter.PoolFromRecords(Get(r.0.store, RedHandThroneKind), env.throneBase, env.throneModifier)
    ensures r.1 == LevelChangeCalls(ui.level, r.0.store)
  {
    var loaded := env.load(ui.level);
    var reset := ResetProperties(loaded, ui.level, env.fps);
    var store := if ui.cached.Some? then Insert(reset, PlayerKind, Generic(ui.cached.value)) else reset;
    assert Get(store, RedHandThroneKind) == Get(loaded, RedHandThroneKind);
    var thrones := Teleporter.PoolFromRecords(Get(store, RedHandThroneKind), env.throneBase, env.throneModifier);
    (ui.(store := store, thrones := thrones), LevelChangeCalls(ui.level, store))
  }

  /** Entering a level resets its script: the tutorial's progress is the
      initial cooldown and the white-space border is not yet traversed,
      whatever was stored before; other levels' properties are the level
      file's. */
  lemma LevelChangeResetsScript(ui: Interface, env: Env)
    requires LoaderOk(env)
    ensures ui.level == Tutorial0 ==>
      IntProperty(OnLevelChange(ui, env).0.store, ProgressKey) == Some(TS.InitialProgress(env.fps))
    ensures ui.level == WhiteSpace ==>
      BoolProperty(OnLevelChange(ui, env).0.store, BorderTraversedKey) == Some(false)
    ensures ui.level != Tutorial0 && ui.level != WhiteSpace ==>
      OnLevelChange(ui, env).0.store.properties == env.load(ui.level).properties
  {
  }

  /** A level change depends only on the level and the cache: what the
      interface held before (progress, flags, records, thrones) is gone. */
  lemma LevelChangeForgetsPlay(a: Interface, b: Interface, env: Env)
    requires LoaderOk(env)
    requires a.level == b.level && a.cached == b.cached
    ensures OnLevelChange(a, env).0.store == OnLevelChange(b, env).0.store
    ensures OnLevelChange(a, env).0.thrones == OnLevelChange(b, env).0.thrones
    ensures OnLevelChange(a, env).1 == OnLevelChange(b, env).1
  {
  }

  /** Resetting a level twice is resetting it once: the cached cell is filed
      once, not once per reset. */
  lemma LevelChangeIdempotent(ui: Interface, env: Env)
    requires LoaderOk(env)
    ensures OnLevelChange(OnLevelChange(ui, env).0, env) == OnLevelChange(ui, env)
  {
  }

  /** In a level-change broadcast the handlers come first, the player
      precedes every pool, and the mixer is told last. */
  lemma LevelChangeOrder(level: LevelName, store: Store)
    ensures var c := LevelChangeCalls(level, store);
      |c| == |Pools| + 5 &&
      c[0] == Invoke(MapHandler, LevelChange) && c[1] == Invoke(ViewHandler, LevelChange) &&
      c[2] == Invoke(Player, LevelChange) &&
      (forall i :: 3 <= i < |c| - 2 ==> IsPool(c[i].dep)) &&
      c[|c| - 1] == Invoke(Mixer, LevelChangeTo(level))
  {
    var c := LevelChangeCalls(level, store);
    forall i | 3 <= i < |c| - 2
      ensures IsPool(c[i].dep)
    {
      assert c[i] == PoolLevelChanges(store)[i - 3];
    }
  }

  /** Every collaborator told of a level change, except the mixer, is also
      told of the window change that follows it. */
  lemma WindowChangeCoversLevelChange(level: LevelName, store: Store, i: int)
    requires 0 <= i < |LevelChangeCalls(level, store)|
    requires LevelChangeCalls(level, store)[i].dep != Mixer
    ensures Invoke(LevelChangeCalls(level, store)[i].dep, WindowChange) in WindowChangeCalls
  {
    var c := LevelChangeCalls(level, store);
    var d := c[i].dep;
    var j :=
      if i < 3 then i
      else if i < 3 + |Pools| then i
      else |WindowChangeOrder| - 2;
    if 3 <= i < 3 + |Pools| {
      assert c[i] == PoolLevelChanges(store)[i - 3];
    }
    assert WindowChangeOrder[j] == d;
    assert WindowChangeCalls[j] == Invoke(d, WindowChange);
  }

  /** What the view handler draws through the dependency lambda (lines
      11-42): the map, the light bulb, the interactables, the thrones, the
      slimes, the projectiles, and the player last. */
  const DependencyDraws: seq<Call> :=
    Broadcast([MapHandler, LightBulb, Laptop, MewO] + Cats + [RedHandThrone, Slime, Pentacle, Player], Draw)

  /** render (lines 115-125): the view (with its dependencies), then the
      dialogue box on top when a dialogue is showing. */
  function Render(state: GameState): (r: seq<Call>)
    ensures |r| >= 1 && r[0] == Invoke(ViewHandler, Draw)
    ensures Invoke(DialogueBox, Draw) in r <==> state == IngameDialogue
  {
    [Invoke(ViewHandler, Draw)] + (if state == IngameDialogue then [Invoke(DialogueBox, Draw)] else [])
  }

  /** The map is drawn first and the player last, and nothing is drawn
      over the player by the dependencies; the placeholders are never
      drawn. */
  lemma PlayerDrawnLast()
    ensures DependencyDraws[0] == Invoke(MapHandler, Draw)
    ensures DependencyDraws[|DependencyDraws| - 1] == Invoke(Player, Draw)
    ensures forall i :: 0 <= i < |DependencyDraws| - 1 ==> DependencyDraws[i].dep != Player
    ensures Invoke(PlaceholderInteractable, Draw) !in DependencyDraws
    ensures Invoke(PlaceholderTeleporter, Draw) !in DependencyDraws
  {
  }

  /** The custom-event broadcast order of handleCustomEventGET (lines 275-294). */
  const GetOrder: seq<Dep> :=
    [Player, PlaceholderInteractable, Laptop, MewO] + Cats +
    [PlaceholderTeleporter, RedHandThrone, Slime, Pentacle]

  /** The teleport response (lines 382-393): change the level, cache the
      destination cell, then level change and window change. */
  function OnTeleport(ui: Interface, env: Env, t: Teleporter.Target): (r: (Interface, seq<Call>))
    requires LoaderOk(env)
    ensures Valid(r.0)
    ensures r.0.level == t.level && r.0.cached == Some(t.destCoords) && r.0.state == ui.state
    ensures |r.1| > 0 && r.1[0] == Invoke(MapHandler, ChangeLevel(t.level))
  {
    var moved := ui.(level := t.level, cached := Some(t.destCoords));
    var (changed, calls) := OnLevelChange(moved, env);
    (changed, [Invoke(MapHandler, ChangeLevel(t.level))] + calls + WindowChangeCalls)
  }

  /** After a teleport the player records of the new level are the level
      file's, plus the destination cell; the rest of the level is the level
      file's; and the level change is broadcast before the window change. */
  lemma TeleportFilesTargetCell(ui: Interface, env: Env, t: Teleporter.Target)
    requires LoaderOk(env)
    ensures var r := OnTeleport(ui, env, t);
      Get(r.0.store, PlayerKind) == Get(env.load(t.level), PlayerKind) + [Generic(t.destCoords)] &&
      (forall k :: k != PlayerKind ==> Get(r.0.store, k) == Get(env.load(t.level), k)) &&
      r.1 == [Invoke(MapHandler, ChangeLevel(t.level))] + LevelChangeCalls(t.level, r.0.store) + WindowChangeCalls
  {
  }

  /** handleCustomEventGET (lines 256-295 with 382-402): the event's own
      handling, then the broadcast to the player and the pools. */
  function HandleCustomEventGet(ui: Interface, env: Env, ev: CustomEvent): (r: (Interface, seq<Call>))
    requires LoaderOk(env)
    ensures Valid(ui) ==> Valid(r.0)
    ensures |r.1| >= |GetOrder| && r.1[|r.1| - |GetOrder|..] == Broadcast(GetOrder, CustomGet)
    ensures ev.DeathPending? ==> r.0 == ui.(grayscale := true)
    ensures ev.DeathFinalized? ==> r.0 == ui.(state := GameOver, grayscale := false)
    ensures ev.OtherCustom? ==> r.0 == ui && r.1 == Broadcast(GetOrder, CustomGet)
    ensures ev.TeleportResponse? ==> r.0 == OnTeleport(ui, env, ev.target).0
  {
    var (handled, calls) :=
      match ev
      case TeleportResponse(t) => OnTeleport(ui, env, t)
      case DeathPending => (ui.(grayscale := true), [])
      case DeathFinalized => (ui.(state := GameOver, grayscale := false), [])
      case OtherCustom(_) => (ui, []);
    (handled, calls + Broadcast(GetOrder, CustomGet))
  }

  /** Death is two-phase: a pending death grays the map but the game goes
      on; the finalized death ends the game and restores colour. Neither
      touches the level. */
  lemma DeathIsTwoPhase(ui: Interface, env: Env)
    requires LoaderOk(env)
    ensures HandleCustomEventGet(ui, env, DeathPending).0.state == ui.state
    ensures HandleCustomEventGet(ui, env, DeathPending).0.grayscale
    ensures var f := HandleCustomEventGet(HandleCustomEventGet(ui, env, DeathPending).0, env, DeathFinalized).0;
      f.state == GameOver && !f.grayscale && f.level == ui.level && f.store == ui.store
  {
  }

  /** The spawn cell of a teleport is never forgotten: a later level reset
      files it again in the reloaded level. */
  lemma CacheOutlivesTeleport(ui: Interface, env: Env, t: Teleporter.Target, enqueued: GameState, boxAfter: GameState)
    requires LoaderOk(env)
    ensures var after := HandleCustomEventGet(ui, env, TeleportResponse(t)).0;
      var reset := HandleKeyBoardEvent(after, env, true, LevelReset, enqueued, boxAfter).0;
      Get(reset.store, PlayerKind) == Get(env.load(t.level), PlayerKind) + [Generic(t.destCoords)]
  {
  }

  /** The interface's own keys (lines 209-227): leave for the menu or
      reset the level on a press, enqueue the test dialogue on any key
      event. The dialogue box's enqueueContents is not part of this model;
      `enqueued` is the game state it leaves (enqueuing may open the
      dialogue). */
  function OwnKey(ui: Interface, env: Env, down: bool, key: Key, enqueued: GameState): (r: (Interface, seq<Call>))
    requires LoaderOk(env)
    ensures Valid(ui) ==> Valid(r.0)
    ensures key == ReturnMenu && down ==> r.0 == ui.(state := LoadingMenu)
    ensures key == LevelReset && down ==> r.0 == OnLevelChange(ui, env).0
    ensures key == DialogueTest ==> r.0 == ui.(state := enqueued)
    ensures !(down && (key == ReturnMenu || key == LevelReset)) && key != DialogueTest ==> r.0 == ui
    ensures forall c :: c in r.1 ==> c.op != KeyboardInput
    ensures Invoke(DialogueBox, EnqueueTest) in r.1 <==> key == DialogueTest
  {
    match key
    case ReturnMenu => if down then (ui.(state := LoadingMenu), []) else (ui, [])
    case LevelReset =>
      if down then
        var changed := OnLevelChange(ui, env);
        LifecycleTakesNoInput(ui.level, changed.0.store);
        (changed.0, changed.1 + WindowChangeCalls)
      else (ui, [])
    case DialogueTest => (ui.(state := enqueued), [Invoke(DialogueBox, EnqueueTest)])
    case OtherKey(_) => (ui, [])
  }

  /** A level reset's broadcasts hand no key to anyone and enqueue nothing. */
  lemma LifecycleTakesNoInput(level: LevelName, store: Store)
    ensures forall c :: c in LevelChangeCalls(level, store) + WindowChangeCalls ==>
      c.op != KeyboardInput && c.op != EnqueueTest
  {
  }

  /** Who hears a key after the handlers: the player while playing, the
      dialogue box during a dialogue, nobody otherwise. */
  function KeyDispatch(state: GameState): (r: seq<Call>)
    ensures Invoke(Player, KeyboardInput) in r <==> state == IngamePlaying
    ensures Invoke(DialogueBox, KeyboardInput) in r <==> state == IngameDialogue
    ensures Invoke(DialogueBox, EnqueueTest) !in r
  {
    match state
    case IngamePlaying => [Invoke(Player, KeyboardInput)]
    case IngameDialogue => [Invoke(DialogueBox, KeyboardInput)]
    case _ => []
  }

  const KeyHandlers: seq<Call> := [Invoke(ViewHandler, KeyboardInput), Invoke(MapHandler, KeyboardInput)]

  /** handleKeyBoardEvent (lines 208-241): the interface's own keys, then
      the view and map handlers, then the player or the dialogue box
      according to the state as it stands after the first step, so the test
      dialogue's enqueue decides it. The dialogue box's key handler is not
      part of this model; `boxAfter` is the game state it leaves (a key may
      close the dialogue). */
  function HandleKeyBoardEvent(ui: Interface, env: Env, down: bool, key: Key, enqueued: GameState, boxAfter: GameState): (r: (Interface, seq<Call>))
    requires LoaderOk(env)
    ensures Valid(ui) ==> Valid(r.0)
    ensures OwnKey(ui, env, down, key, enqueued).0.state != IngameDialogue ==> r.0 == OwnKey(ui, env, down, key, enqueued).0
    ensures OwnKey(ui, env, down, key, enqueued).0.state == IngameDialogue ==>
      r.0 == OwnKey(ui, env, down, key, enqueued).0.(state := boxAfter)
    ensures (Invoke(DialogueBox, EnqueueTest) in r.1) <==> key == DialogueTest
    ensures Invoke(Player, KeyboardInput) in r.1 <==> OwnKey(ui, env, down, key, enqueued).0.state == IngamePlaying
    ensures Invoke(DialogueBox, KeyboardInput) in r.1 <==> OwnKey(ui, env, down, key, enqueued).0.state == IngameDialogue
  {
    var (keyed, own) := OwnKey(ui, env, down, key, enqueued);
    KeyCallsFacts(own, KeyDispatch(keyed.state));
    var answered := if keyed.state == IngameDialogue then keyed.(state := boxAfter) else keyed;
    (answered, own + KeyHandlers + KeyDispatch(keyed.state))
  }

  /** Where the key goes is decided by the dispatch alone: the interface's
      own calls and the handlers' hold no dispatch to the player or the box. */
  lemma KeyCallsFacts(own: seq<Call>, dispatched: seq<Call>)
    requires forall c :: c in own ==> c.op != KeyboardInput
    ensures forall d :: Invoke(d, KeyboardInput) in own + KeyHandlers + dispatched <==>
      d == ViewHandler || d == MapHandler || Invoke(d, KeyboardInput) in dispatched
    ensures Invoke(DialogueBox, EnqueueTest) in own + KeyHandlers + dispatched <==>
      Invoke(DialogueBox, EnqueueTest) in own || Invoke(DialogueBox, EnqueueTest) in dispatched
  {
  }

  /** Returning to the menu takes effect before the dispatch: the key that
      leaves the game never reaches the player. */
  lemma ReturnMenuWithholdsKey(ui: Interface, env: Env, enqueued: GameState, boxAfter: GameState)
    requires LoaderOk(env) && ui.state == IngamePlaying
    ensures HandleKeyBoardEvent(ui, env, true, ReturnMenu, enqueued, boxAfter).0.state == LoadingMenu
    ensures Invoke(Player, KeyboardInput) !in HandleKeyBoardEvent(ui, env, true, ReturnMenu, enqueued, boxAfter).1
    ensures Invoke(Player, KeyboardInput) in HandleKeyBoardEvent(ui, env, false, ReturnMenu, enqueued, boxAfter).1
  {
  }

  /** The dialogue test key fires on release as well as on press, unlike
      the two other keys, whose release acts like any other key. */
  lemma DialogueTestIgnoresKeyDirection(ui: Interface, env: Env, enqueued: GameState, boxAfter: GameState, code: nat)
    requires LoaderOk(env)
    ensures Invoke(DialogueBox, EnqueueTest) in HandleKeyBoardEvent(ui, env, true, DialogueTest, enqueued, boxAfter).1
    ensures Invoke(DialogueBox, EnqueueTest) in HandleKeyBoardEvent(ui, env, false, DialogueTest, enqueued, boxAfter).1
    ensures HandleKeyBoardEvent(ui, env, false, LevelReset, enqueued, boxAfter).0 ==
      HandleKeyBoardEvent(ui, env, false, OtherKey(code), enqueued, boxAfter).0
    ensures HandleKeyBoardEvent(ui, env, false, ReturnMenu, enqueued, boxAfter).0 ==
      HandleKeyBoardEvent(ui, env, false, OtherKey(code), enqueued, boxAfter).0
  {
  }

  /** The test dialogue's enqueue comes before the dispatch: when it opens
      the dialogue, the key that asked for it goes to the dialogue box and
      not to the player; when it leaves the game playing, the player gets
      the key. */
  lemma TestDialogueRedirectsKey(ui: Interface, env: Env, down: bool, boxAfter: GameState)
    requires LoaderOk(env)
    ensures var r := HandleKeyBoardEvent(ui, env, down, DialogueTest, IngameDialogue, boxAfter);
      Invoke(Player, KeyboardInput) !in r.1 && Invoke(DialogueBox, KeyboardInput) in r.1 &&
      r.0 == ui.(state := boxAfter)
    ensures var r := HandleKeyBoardEvent(ui, env, down, DialogueTest, IngamePlaying, boxAfter);
      Invoke(Player, KeyboardInput) in r.1 && Invoke(DialogueBox, KeyboardInput) !in r.1 &&
      r.0 == ui.(state := IngamePlaying)
  {
  }

  /** handleMouseEvent (lines 243-251): only a playing player hears the mouse. */
  function HandleMouseEvent(state: GameState): (r: seq<Call>)
    ensures Invoke(Player, MouseInput) in r <==> state == IngamePlaying
    ensures |r| <= 1
  {
    if state == IngamePlaying then [Invoke(Player, MouseInput)] else []
  }

  /** handleEntitiesInteraction (lines 331-360): the animations of the
      static entities, then slimes, projectiles, and the player last. */
  const InteractionCalls: seq<Call> :=
    Broadcast([LightBulb, PlaceholderInteractable, Laptop, MewO] + Cats + [RedHandThrone], UpdateAnimation) +
    [Invoke(Slime, InitiateAnimation), Invoke(Slime, Move), Invoke(Slime, UpdateAnimation),
     Invoke(Pentacle, HandleInstantiation), Invoke(Pentacle, HandleTermination), Invoke(Pentacle, UpdateAnimation),
     Invoke(Player, InitiateAnimation), Invoke(Player, Move), Invoke(Player, UpdateAnimation)]

  /** The player moves after the slimes, and its update is the last call
      of the pass. */
  lemma PlayerMovesAfterSlimes()
    ensures var n := |InteractionCalls|;
      InteractionCalls[n - 1] == Invoke(Player, UpdateAnimation) &&
      InteractionCalls[n - 2] == Invoke(Player, Move) &&
      InteractionCalls[n - 8] == Invoke(Slime, Move) &&
      forall i :: 0 <= i < n - 3 ==> InteractionCalls[i].dep != Player
  {
  }

  /** handleEntitiesSFX (lines 376-380). */
  const SfxCalls: seq<Call> := [Invoke(Player, HandleSfx), Invoke(Slime, HandleSfx)]

  /** The dialogue box's per-frame work. */
  const DialogueCalls: seq<Call> := [Invoke(DialogueBox, UpdateProgress), Invoke(DialogueBox, HandleSfx)]

  /** The calls of the tutorial script, addressed to their collaborators. */
  function TutorialCall(e: TS.Effect): (c: Call) {
    match e
    case PlayerMoveEndInvalidated => Invoke(Player, MoveEndInvalidated)
    case PlayerRunningOff => Invoke(Player, RunningOff)
    case Enqueue(batch) => Invoke(DialogueBox, EnqueueBatch(batch))
    case SlimesLevelChange(records) => Invoke(Slime, LevelChangeAll(records))
    case SlimesWindowChange => Invoke(Slime, WindowChange)
  }

  /** The calls of the white-space rule, addressed to the throne pool. */
  function WhiteSpaceCall(e: WS.Effect): (c: Call) {
    match e
    case ThronesWindowChange => Invoke(RedHandThrone, WindowChange)
    case ThronesLevelChange(records) => Invoke(RedHandThrone, LevelChangeAll(records))
  }

  /** The white-space borders: from the view's size and the level's size. */
  function SettingOf(env: Env, store: Store): WS.Setting {
    WS.Setting(
      WS.ColumnBounds(env.viewTileCountWidth, store.tileDestCount.x),
      WS.RowBounds(env.viewTileCountHeight, store.tileDestCount.y),
      env.throneBase, env.throneModifier)
  }

  /** handleLevelSpecifics (lines 362-374): the current level's script, if
      it has one. `pv` is the player as it stands. A batch the script
      enqueues may open a dialogue, but that is the dialogue box's doing:
      the state the box leaves is applied at the end of the frame, by
      HandleDependencies. */
  function HandleLevelSpecifics(ui: Interface, env: Env, pv: TS.PlayerView): (r: (Interface, seq<Call>))
    requires Valid(ui)
    ensures Valid(r.0)
    ensures r.0.state == ui.state && r.0.level == ui.level && r.0.cached == ui.cached
    ensures ui.level == Tutorial0 ==>
      r.0.store == TS.Step(ui.store, pv).store &&
      r.1 == seq(|TS.Step(ui.store, pv).effects|, i requires 0 <= i < |TS.Step(ui.store, pv).effects| =>
        TutorialCall(TS.Step(ui.store, pv).effects[i]))
    ensures ui.level == WhiteSpace ==>
      var w := WS.Step(WS.World(ui.store, ui.thrones), pv.nextDestCoords, SettingOf(env, ui.store));
      r.0.store == w.world.store && r.0.thrones == w.world.thrones
    ensures ui.level != Tutorial0 && ui.level != WhiteSpace ==> r == (ui, [])
  {
    match ui.level
    case Tutorial0 =>
      var st := TS.Step(ui.store, pv);
      (ui.(store := st.store),
       seq(|st.effects|, i requires 0 <= i < |st.effects| => TutorialCall(st.effects[i])))
    case WhiteSpace =>
      var w := WS.Step(WS.World(ui.store, ui.thrones), pv.nextDestCoords, SettingOf(env, ui.store));
      var pending := if w.next.Some? then [Invoke(Player, PendingCell(w.next.value))] else [];
      (ui.(store := w.world.store, thrones := w.world.thrones),
       pending + seq(|w.effects|, i requires 0 <= i < |w.effects| => WhiteSpaceCall(w.effects[i])))
    case _ => (ui, [])
  }

  /** handleDependencies (lines 311-326): a playing frame runs interaction,
      the level script and sound, and then, falling through, the dialogue
      box; a dialogue frame runs the dialogue box only; other states do
      nothing. The dialogue box is not part of this model: `boxAfter` is the
      game state it leaves once it has run (it opens a dialogue for a batch
      enqueued, and closes it when the last page is done). */
  function HandleDependencies(ui: Interface, env: Env, pv: TS.PlayerView, boxAfter: GameState): (r: (Interface, seq<Call>))
    requires Valid(ui)
    ensures Valid(r.0)
    ensures r.0.level == ui.level
    ensures ui.state == IngamePlaying ==>
      var specifics := HandleLevelSpecifics(ui, env, pv);
      r == (specifics.0.(state := boxAfter), InteractionCalls + specifics.1 + SfxCalls + DialogueCalls)
    ensures ui.state == IngameDialogue ==> r == (ui.(state := boxAfter), DialogueCalls)
    ensures ui.state != IngamePlaying && ui.state != IngameDialogue ==> r == (ui, [])
  {
    match ui.state
    case IngamePlaying =>
      var (specified, calls) := HandleLevelSpecifics(ui, env, pv);
      (specified.(state := boxAfter), InteractionCalls + calls + SfxCalls + DialogueCalls)
    case IngameDialogue => (ui.(state := boxAfter), DialogueCalls)
    case _ => (ui, [])
  }

  /** An open dialogue pauses the level script: the tutorial's progress,
      the white-space flag, the level and the thrones stand still while the
      dialogue box runs; only the box can end the dialogue. */
  lemma DialoguePausesScript(ui: Interface, env: Env, pv: TS.PlayerView, boxAfter: GameState)
    requires Valid(ui) && ui.state == IngameDialogue
    ensures HandleDependencies(ui, env, pv, boxAfter).0 == ui.(state := boxAfter)
    ensures forall c :: c in HandleDependencies(ui, env, pv, boxAfter).1 ==> c.dep == DialogueBox
  {
  }

  /** Through the interface the tutorial's progress never goes down, and
      it moves only in a playing frame. */
  lemma {:induction false} TutorialProgressMonotone(ui: Interface, env: Env, pv: TS.PlayerView, boxAfter: GameState)
    requires Valid(ui) && ui.level == Tutorial0
    ensures TS.HasProgress(HandleDependencies(ui, env, pv, boxAfter).0.store)
    ensures TS.Progress(ui.store) <= TS.Progress(HandleDependencies(ui, env, pv, boxAfter).0.store) <= TS.Progress(ui.store) + 1
    ensures ui.state != IngamePlaying ==>
      TS.Progress(HandleDependencies(ui, env, pv, boxAfter).0.store) == TS.Progress(ui.store)
  {
    if ui.state == IngamePlaying {
      assert HandleDependencies(ui, env, pv, boxAfter).0.store == TS.Step(ui.store, pv).store;
    }
  }

  /** The frames played after entering the tutorial: the cooldown set by
      the level change lasts exactly -InitialProgress(fps) playing frames,
      and no dialogue appears before it ends. */
  lemma TutorialCooldownAfterEntry(ui: Interface, env: Env, frames: seq<TS.PlayerView>)
    requires LoaderOk(env) && ui.level == Tutorial0 && env.fps > 0
    requires |frames| == -TS.InitialProgress(env.fps)
    ensures var entered := OnLevelChange(ui, env).0;
      TS.Progress(TS.Run(entered.store, frames).store) == 0 &&
      TS.Run(entered.store, frames).effects == []
  {
    var entered := OnLevelChange(ui, env).0;
    LevelChangeResetsScript(ui, env);
    CooldownFromInitialProgress(entered.store, env.fps, frames);
  }

  lemma CooldownFromInitialProgress(s: Store, fps: int, frames: seq<TS.PlayerView>)
    requires IntProperty(s, ProgressKey) == Some(TS.InitialProgress(fps)) && fps > 0
    requires |frames| == -TS.InitialProgress(fps)
    ensures TS.HasProgress(s)
    ensures TS.Progress(TS.Run(s, frames).store) == 0 && TS.Run(s, frames).effects == []
  {
    TS.CooldownReachesZero(s, frames);
  }
}
