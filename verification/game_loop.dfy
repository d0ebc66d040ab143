/** The original orchestrator, Game (src/game.cpp): the fixed-order
    lifecycle broadcasts, the frame loop (entities, events, render), the
    interaction pass, and the dispatch of window, mouse and keyboard events
    by game state. Calls into collaborators are returned as a sequence so
    their order can be stated. */
module GameLoop {
  import opened Geometry
  import opened LevelData
  import opened Combat
  import opened Teleporter
  import opened Wrappers

  datatype Key = Escape | OtherKey(code: nat)
  datatype MouseAction = Motion | ButtonDown | ButtonUp
  datatype WindowAction = SizeChanged | OtherWindowAction

  /** The SDL events the loop tells apart. */
  datatype Event =
    | Quit
    | WindowEvent(windowId: nat, windowAction: WindowAction)
    | MouseEvent(mouseAction: MouseAction)
    | KeyEvent(down: bool, key: Key)
    | OtherEvent

  /** A call the orchestrator makes, on a collaborator or on a whole pool
      (callOnEach / onLevelChangeAll). */
  datatype Call =
    | InterfaceLevelChange | PlayerLevelChange | TeleportersLevelChange | SlimesLevelChange
    | InterfaceWindowChange | MenuWindowChange | PlayerWindowChange | TeleportersWindowChange | SlimesWindowChange
    | RenderClear | InterfaceRender | TeleportersRender | SlimesRender | PlayerRender | MenuRender | RenderPresent
    | PlayerInitiateAnimation | PlayerMove | PlayerUpdateAnimation | TeleportersUpdateAnimation
    | SlimesCalculateMove | SlimesInitiateAnimation | SlimesMove | SlimesUpdateAnimation
    | CheckTeleporterCollision | ChangeLevel(level: LevelName) | CheckSlimeCollision
    | CheckAttackInitiate(slime: nat) | CheckPlayerDamaged(slime: nat) | CheckSlimeDamaged(slime: nat)
    | SlimeAnimation(slime: nat, committed: AnimationType)
    | PlayerAnimation(slime: nat, committed: AnimationType)
    | MenuMouseEvent | PlayerKeyboardEvent

  /** The orchestrator's state: the game state, its window's id, the level
      the interface is on, the player's spawn cell in the current level
      data, and the fighters of the interaction pass (the player, and the
      slime slots, some of which may be null). */
  datatype Game = Game(
    state: GameState, windowId: nat, level: LevelName, playerSpawn: Point,
    player: Fighter, slimes: seq<Option<Fighter>>)

  /** What the interface's level load yields for a level: the player's
      spawn cell (playerLevelData) and the slime slots the pool is rebuilt
      with (from slimesLevelData). */
  datatype Loaded = Loaded(spawn: Point, slimes: seq<Option<Fighter>>)

  /** The hidden collaborators: the predicates of the interaction pass
      (checkEntityAttackInitiate and the two checkEntityAttackRegister
      instances), the damage formula, and the interface's level load. */
  datatype Rules = Rules(
    slimeInitiates: (Fighter, Fighter) -> bool,
    playerHitBySlime: (Fighter, Fighter) -> bool,
    slimeHitByPlayer: (Fighter, Fighter) -> bool,
    damage: DamageFormula,
    load: LevelName -> Loaded)

  /** The state change of onLevelChange: the interface loads the current
      level's data, and the player and the slimes take it. The player's
      fighter state is kept; only its spawn cell is replaced. */
  function ReloadLevel(g: Game, rules: Rules): (r: Game)
    ensures r.playerSpawn == rules.load(g.level).spawn && r.slimes == rules.load(g.level).slimes
    ensures r.state == g.state && r.level == g.level && r.player == g.player && r.windowId == g.windowId
  {
    g.(playerSpawn := rules.load(g.level).spawn, slimes := rules.load(g.level).slimes)
  }

  /** A reload depends on the level only: the spawn cell and slimes held
      before leave no trace, and reloading twice is reloading once. */
  lemma ReloadForgetsPlay(g: Game, h: Game, rules: Rules)
    requires g.level == h.level
    ensures ReloadLevel(g, rules).playerSpawn == ReloadLevel(h, rules).playerSpawn
    ensures ReloadLevel(g, rules).slimes == ReloadLevel(h, rules).slimes
    ensures ReloadLevel(ReloadLevel(g, rules), rules) == ReloadLevel(g, rules)
  {
  }

  /** onLevelChange: interface first (it loads the level data), then the
      player, the teleporters and the slimes. */
  const LevelChangeCalls: seq<Call> :=
    [InterfaceLevelChange, PlayerLevelChange, TeleportersLevelChange, SlimesLevelChange]

  /** onWindowChange: interface, menu, player, teleporters, slimes. */
  const WindowChangeCalls: seq<Call> :=
    [InterfaceWindowChange, MenuWindowChange, PlayerWindowChange, TeleportersWindowChange, SlimesWindowChange]

  /** handleEntitiesMovement: the player first, then teleporters, then the
      slimes (which move toward the player's cell). */
  const MovementCalls: seq<Call> :=
    [PlayerInitiateAnimation, PlayerMove, PlayerUpdateAnimation, TeleportersUpdateAnimation,
     SlimesCalculateMove, SlimesInitiateAnimation, SlimesMove, SlimesUpdateAnimation]

  predicate IsEntityDraw(c: Call) {
    c == TeleportersRender || c == SlimesRender || c == PlayerRender
  }

  /** render: clear, then what the state shows, then present. */
  function Render(state: GameState): (r: seq<Call>)
    ensures |r| >= 2 && r[0] == RenderClear && r[|r| - 1] == RenderPresent
    ensures state == IngamePlaying ==>
      r[|r| - 2] == PlayerRender && r[1] == InterfaceRender
    ensures state == IngamePlaying ==> PlayerRender in r && InterfaceRender in r
    ensures state == Menu ==> r == [RenderClear, MenuRender, RenderPresent]
    ensures state != Menu && state != IngamePlaying ==> r == [RenderClear, RenderPresent]
  {
    var shown :=
      match state
      case IngamePlaying => [InterfaceRender, TeleportersRender, SlimesRender, PlayerRender]
      case Menu => [MenuRender]
      case _ => [];
    [RenderClear] + shown + [RenderPresent]
  }

  /** The player is the last entity drawn in every frame, and no entity is
      drawn outside the playing state. */
  lemma PlayerDrawnLast(state: GameState)
    ensures forall i :: 0 <= i < |Render(state)| && IsEntityDraw(Render(state)[i]) ==>
      state == IngamePlaying && i <= |Render(state)| - 2
    ensures state == IngamePlaying ==> Render(state)[|Render(state)| - 2] == PlayerRender
  {
  }

  /** In a playing frame the layers are drawn environment first: the
      interface before every teleporter, teleporters before slimes, slimes
      before the player. */
  lemma PlayingRenderLayers()
    ensures Render(IngamePlaying) ==
      [RenderClear, InterfaceRender, TeleportersRender, SlimesRender, PlayerRender, RenderPresent]
  {
  }

  /** The calls, and the fighters afterwards, of one slime's turn. */
  datatype Turn = Turn(player: Fighter, slime: Option<Fighter>, calls: seq<Call>)

  /** The interaction checks of a list of calls, in order. */
  function CheckCalls(calls: seq<Call>): (r: seq<Call>)
    ensures |r| <= |calls|
    ensures forall c :: c in r ==> c in calls
  {
    if calls == [] then []
    else
      (if calls[0].CheckAttackInitiate? || calls[0].CheckPlayerDamaged? || calls[0].CheckSlimeDamaged?
       then [calls[0]] else [])
      + CheckCalls(calls[1..])
  }

  lemma {:induction false} CheckCallsAppend(a: seq<Call>, b: seq<Call>)
    ensures CheckCalls(a + b) == CheckCalls(a) + CheckCalls(b)
    decreases |a|
  {
    if a != [] {
      CheckCallsAppend(a[1..], b);
      assert (a + b)[0] == a[0];
      assert (a + b)[1..] == a[1..] + b;
    } else {
      assert a + b == b;
    }
  }

  /** The slot a call is about, if any. */
  function SlotOf(c: Call): Option<nat> {
    match c
    case CheckAttackInitiate(i) => Some(i)
    case CheckPlayerDamaged(i) => Some(i)
    case CheckSlimeDamaged(i) => Some(i)
    case SlimeAnimation(i, _) => Some(i)
    case PlayerAnimation(i, _) => Some(i)
    case _ => None
  }

  predicate Live(slot: Option<Fighter>) {
    slot.Some? && slot.value.currAnimation != Death
  }

  /** One check of a slime's turn: the check itself, then, if it holds,
      the resulting animation request on the active fighter. */
  datatype Checked = Checked(active: Fighter, calls: seq<Call>)

  /** checkEntityAttackInitiate<Slime, Player>, then onEntityAnimation(kAttack). */
  function InitiateCheck(s: Fighter, p: Fighter, i: nat, rules: Rules): (c: Checked)
    ensures CheckCalls(c.calls) == [CheckAttackInitiate(i)]
    ensures |c.calls| > 0 && c.calls[0] == CheckAttackInitiate(i)
    ensures forall x :: x in c.calls ==> SlotOf(x) == Some(i)
    ensures c.active.stats == s.stats
  {
    if rules.slimeInitiates(s, p) then
      var o := OnEntityAnimation(Attack, s, p, rules.damage);
      Checked(o.active, [CheckAttackInitiate(i), SlimeAnimation(i, o.committed)])
    else Checked(s, [CheckAttackInitiate(i)])
  }

  /** checkEntityAttackRegister<Player, Slime>, then onEntityAnimation(kDamaged) on the player. */
  function PlayerHitCheck(p: Fighter, s: Fighter, i: nat, rules: Rules): (c: Checked)
    ensures CheckCalls(c.calls) == [CheckPlayerDamaged(i)]
    ensures forall x :: x in c.calls ==> SlotOf(x) == Some(i)
  {
    if rules.playerHitBySlime(p, s) then
      var o := OnEntityAnimation(Damaged, p, s, rules.damage);
      Checked(o.active, [CheckPlayerDamaged(i), PlayerAnimation(i, o.committed)])
    else Checked(p, [CheckPlayerDamaged(i)])
  }

  /** checkEntityAttackRegister<Slime, Player>, then onEntityAnimation(kDamaged) on the slime. */
  function SlimeHitCheck(s: Fighter, p: Fighter, i: nat, rules: Rules): (c: Checked)
    ensures CheckCalls(c.calls) == [CheckSlimeDamaged(i)]
    ensures forall x :: x in c.calls ==> SlotOf(x) == Some(i)
  {
    if rules.slimeHitByPlayer(s, p) then
      var o := OnEntityAnimation(Damaged, s, p, rules.damage);
      Checked(o.active, [CheckSlimeDamaged(i), SlimeAnimation(i, o.committed)])
    else Checked(s, [CheckSlimeDamaged(i)])
  }

  /** One iteration of the slime loop: skip a null or dying slime; else the
      slime may start an attack on the player, then the player may be hit
      by the slime, then the slime may be hit by the player. */
  function SlimeTurn(p: Fighter, slot: Option<Fighter>, i: nat, rules: Rules): (t: Turn)
    ensures !Live(slot) ==> t == Turn(p, slot, [])
    ensures Live(slot) ==> t.slime.Some? && |t.calls| > 0 && t.calls[0] == CheckAttackInitiate(i)
    ensures Live(slot) ==>
      CheckCalls(t.calls) == [CheckAttackInitiate(i), CheckPlayerDamaged(i), CheckSlimeDamaged(i)]
    ensures forall c :: c in t.calls ==> SlotOf(c) == Some(i)
    ensures t.slime.Some? <==> slot.Some?
  {
    if !Live(slot) then Turn(p, slot, [])
    else
      var a := InitiateCheck(slot.value, p, i, rules);
      var b := PlayerHitCheck(p, a.active, i, rules);
      var d := SlimeHitCheck(a.active, b.active, i, rules);
      CheckCallsAppend(a.calls, b.calls);
      CheckCallsAppend(a.calls + b.calls, d.calls);
      Turn(b.active, Some(d.active), a.calls + b.calls + d.calls)
  }

  /** The result of the slime loop over slots `from..`. */
  datatype Pass = Pass(player: Fighter, slimes: seq<Option<Fighter>>, calls: seq<Call>)

  predicate SlotsAscending(calls: seq<Call>) {
    forall j, k :: 0 <= j < k < |calls| && SlotOf(calls[j]).Some? && SlotOf(calls[k]).Some? ==>
      SlotOf(calls[j]).value <= SlotOf(calls[k]).value
  }

  /** `for (auto& slime : slimes)`, from slot `from` on. */
  function SlimeLoop(p: Fighter, slimes: seq<Option<Fighter>>, from: nat, rules: Rules): (r: Pass)
    requires from <= |slimes|
    ensures |r.slimes| == |slimes|
    ensures r.slimes[..from] == slimes[..from]
    ensures forall j :: from <= j < |slimes| && !Live(slimes[j]) ==> r.slimes[j] == slimes[j]
    ensures forall j :: 0 <= j < |slimes| ==> (r.slimes[j].Some? <==> slimes[j].Some?)
    decreases |slimes| - from
  {
    if from == |slimes| then Pass(p, slimes, [])
    else
      var t := SlimeTurn(p, slimes[from], from, rules);
      var rest := SlimeLoop(t.player, slimes[from := t.slime], from + 1, rules);
      Pass(rest.player, rest.slimes, t.calls + rest.calls)
  }

  /** The calls of the loop are about live slots from `from` on, in
      ascending slot order: slime by slime, never interleaved. */
  lemma {:induction false} SlimeLoopCalls(p: Fighter, slimes: seq<Option<Fighter>>, from: nat, rules: Rules)
    requires from <= |slimes|
    ensures var r := SlimeLoop(p, slimes, from, rules);
      (forall c :: c in r.calls ==> SlotOf(c).Some? && from <= SlotOf(c).value < |slimes|) &&
      (forall c :: c in r.calls ==> Live(slimes[SlotOf(c).value])) &&
      SlotsAscending(r.calls)
    decreases |slimes| - from
  {
    if from < |slimes| {
      var t := SlimeTurn(p, slimes[from], from, rules);
      var next := slimes[from := t.slime];
      var rest := SlimeLoop(t.player, next, from + 1, rules);
      SlimeLoopCalls(t.player, next, from + 1, rules);
      assert forall c :: c in rest.calls ==> Live(slimes[SlotOf(c).value]) by {
        forall c | c in rest.calls
          ensures Live(slimes[SlotOf(c).value])
        {
          assert Live(next[SlotOf(c).value]) && SlotOf(c).value != from;
        }
      }
      assert forall c :: c in t.calls ==> SlotOf(c) == Some(from);
      assert forall c :: c in t.calls ==> Live(slimes[from]);
      LemmaAscendingConcat(t.calls, rest.calls, from);
      assert SlimeLoop(p, slimes, from, rules).calls == t.calls + rest.calls;
    }
  }

  lemma LemmaAscendingConcat(a: seq<Call>, b: seq<Call>, i: nat)
    requires forall c :: c in a ==> SlotOf(c) == Some(i)
    requires forall c :: c in b ==> SlotOf(c).Some? && i < SlotOf(c).value
    requires SlotsAscending(b)
    ensures SlotsAscending(a + b)
  {
    forall j, k | 0 <= j < k < |a + b| && SlotOf((a + b)[j]).Some? && SlotOf((a + b)[k]).Some?
      ensures SlotOf((a + b)[j]).value <= SlotOf((a + b)[k]).value
    {
      if j < |a| {
        assert (a + b)[j] in a;
        if k < |a| {
          assert (a + b)[k] in a;
        } else {
          assert (a + b)[k] == b[k - |a|] && b[k - |a|] in b;
        }
      } else {
        assert (a + b)[j] == b[j - |a|] && (a + b)[k] == b[k - |a|];
      }
    }
  }

  /** Null and dying slimes trigger nothing: with no live slot from `from`
      on, the loop makes no call and changes nothing. */
  lemma {:induction false} DeadSlimesTriggerNothing(p: Fighter, slimes: seq<Option<Fighter>>, from: nat, rules: Rules)
    requires from <= |slimes|
    requires forall j :: from <= j < |slimes| ==> !Live(slimes[j])
    ensures SlimeLoop(p, slimes, from, rules) == Pass(p, slimes, [])
    decreases |slimes| - from
  {
    if from < |slimes| {
      assert slimes[from := slimes[from]] == slimes;
      DeadSlimesTriggerNothing(p, slimes, from + 1, rules);
    }
  }

  /** Every live slot has its turn: its attack-initiate check is made. */
  lemma {:induction false} EveryLiveSlimeChecked(p: Fighter, slimes: seq<Option<Fighter>>, from: nat, rules: Rules, j: nat)
    requires from <= j < |slimes| && Live(slimes[j])
    ensures CheckAttackInitiate(j) in SlimeLoop(p, slimes, from, rules).calls
    decreases |slimes| - from
  {
    var t := SlimeTurn(p, slimes[from], from, rules);
    var rest := SlimeLoop(t.player, slimes[from := t.slime], from + 1, rules);
    if j == from {
      assert t.calls[0] == CheckAttackInitiate(j);
      assert SlimeLoop(p, slimes, from, rules).calls == t.calls + rest.calls;
    } else {
      EveryLiveSlimeChecked(t.player, slimes[from := t.slime], from + 1, rules, j);
    }
  }

  /** onEntityCollision<Player, Teleporter>: switch the interface's level
      to the teleporter's, write its destination cell into the player's
      level data, then run the level change and the window change, in that
      order. The level change reloads the level's data, spawn cell
      included, so the cell written before it is overwritten. */
  function OnTeleporterCollision(g: Game, t: Target, rules: Rules): (r: (Game, seq<Call>))
    ensures r.0.level == t.level
    ensures r.0.playerSpawn == rules.load(t.level).spawn && r.0.slimes == rules.load(t.level).slimes
    ensures r.0.state == g.state && r.0.player == g.player
    ensures r.1 == [ChangeLevel(t.level)] + LevelChangeCalls + WindowChangeCalls
  {
    var written := g.(level := t.level, playerSpawn := t.destCoords);
    (ReloadLevel(written, rules), [ChangeLevel(t.level)] + LevelChangeCalls + WindowChangeCalls)
  }

  /** The teleporter's destination cell has no effect in this orchestrator:
      two teleporters to the same level, whatever their cells, leave the
      game in the same state, and unless the level's own spawn happens to
      be the destination, the player does not land on it. */
  lemma TeleportCellOverwrittenByReload(g: Game, t: Target, cell: Point, rules: Rules)
    ensures OnTeleporterCollision(g, t, rules).0 == OnTeleporterCollision(g, Target(cell, t.level), rules).0
    ensures rules.load(t.level).spawn != t.destCoords ==> OnTeleporterCollision(g, t, rules).0.playerSpawn != t.destCoords
  {
  }

  /** The teleport as evidently intended: the destination cell is written
      into the loaded level data before the player reads it, so the player
      spawns on the teleporter's destination. */
  function OnTeleporterCollisionCellAfterLoad(g: Game, t: Target, rules: Rules): (r: (Game, seq<Call>))
    ensures r.0.level == t.level && r.0.playerSpawn == t.destCoords
    ensures r.0.slimes == rules.load(t.level).slimes
    ensures r.0.state == g.state && r.0.player == g.player
    ensures r.1 == OnTeleporterCollision(g, t, rules).1
  {
    var loaded := ReloadLevel(g.(level := t.level), rules);
    (loaded.(playerSpawn := t.destCoords), [ChangeLevel(t.level)] + LevelChangeCalls + WindowChangeCalls)
  }

  /** The intended teleport differs from the written one only in the spawn
      cell, and there the destination decides: teleporters to different
      cells of one level leave different games. */
  lemma CellAfterLoadLandsOnTarget(g: Game, t: Target, cell: Point, rules: Rules)
    ensures OnTeleporterCollisionCellAfterLoad(g, t, rules).0 ==
      OnTeleporterCollision(g, t, rules).0.(playerSpawn := t.destCoords)
    ensures cell != t.destCoords ==>
      OnTeleporterCollisionCellAfterLoad(g, t, rules).0 != OnTeleporterCollisionCellAfterLoad(g, Target(cell, t.level), rules).0
  {
  }

  /** The two collision checks that open the interaction pass: player
      against teleporters by cell (a hit teleports), then player against
      slimes by rectangle (a collision that does nothing). */
  function CollisionChecks(g: Game, hit: Option<Target>, rules: Rules): (r: (Game, seq<Call>))
    ensures hit.None? ==> r == (g, [CheckTeleporterCollision, CheckSlimeCollision])
    ensures hit.Some? ==> r.0 == OnTeleporterCollision(g, hit.value, rules).0
    ensures |r.1| >= 2 && r.1[0] == CheckTeleporterCollision
    ensures PlayerMove !in r.1 && PlayerKeyboardEvent !in r.1
    ensures hit.Some? ==>
      r.1 == [CheckTeleporterCollision, ChangeLevel(hit.value.level)] + LevelChangeCalls + WindowChangeCalls +
             [CheckSlimeCollision]
  {
    if hit.Some? then
      var (g1, tcalls) := OnTeleporterCollision(g, hit.value, rules);
      (g1, [CheckTeleporterCollision, ChangeLevel(hit.value.level)] + LevelChangeCalls + WindowChangeCalls +
           [CheckSlimeCollision])
    else (g, [CheckTeleporterCollision, CheckSlimeCollision])
  }

  /** handleEntitiesInteraction: the collision checks, then the slime loop.
      `hit` is the teleporter the collision check found. */
  function Interaction(g: Game, hit: Option<Target>, rules: Rules): (r: (Game, seq<Call>))
    ensures |r.1| >= 2 && r.1[0] == CheckTeleporterCollision
    ensures hit.None? ==> r.0.level == g.level && r.0.playerSpawn == g.playerSpawn
    ensures hit.Some? ==> r.0.level == hit.value.level && r.0.playerSpawn == rules.load(hit.value.level).spawn
    ensures r.0.state == g.state
    ensures hit.None? ==> |r.0.slimes| == |g.slimes|
    ensures hit.Some? ==> |r.0.slimes| == |rules.load(hit.value.level).slimes|
    ensures PlayerMove !in r.1 && PlayerKeyboardEvent !in r.1
  {
    var (g1, pre) := CollisionChecks(g, hit, rules);
    var pass := SlimeLoop(g1.player, g1.slimes, 0, rules);
    SlimeLoopMakesNoPlayerCall(g1.player, g1.slimes, rules);
    (g1.(player := pass.player, slimes := pass.slimes), pre + pass.calls)
  }

  /** The slime loop makes only slot calls: the player is neither moved
      nor handed a key by it. */
  lemma SlimeLoopMakesNoPlayerCall(p: Fighter, slimes: seq<Option<Fighter>>, rules: Rules)
    ensures PlayerMove !in SlimeLoop(p, slimes, 0, rules).calls
    ensures PlayerKeyboardEvent !in SlimeLoop(p, slimes, 0, rules).calls
  {
    SlimeLoopCalls(p, slimes, 0, rules);
    assert SlotOf(PlayerMove).None? && SlotOf(PlayerKeyboardEvent).None?;
  }

  /** A teleport hit is handled before anything else in the pass: the
      level change, then the window change, then the slime collision check
      and the slime loop. */
  lemma InteractionTeleportsFirst(g: Game, t: Target, rules: Rules)
    ensures var calls := Interaction(g, Some(t), rules).1;
      var opening := [CheckTeleporterCollision, ChangeLevel(t.level)] + LevelChangeCalls + WindowChangeCalls;
      |calls| > |opening| && calls[..|opening|] == opening && calls[|opening|] == CheckSlimeCollision
  {
    var (g1, pre) := CollisionChecks(g, Some(t), rules);
    var pass := SlimeLoop(g1.player, g1.slimes, 0, rules);
    var opening := [CheckTeleporterCollision, ChangeLevel(t.level)] + LevelChangeCalls + WindowChangeCalls;
    assert pre + pass.calls == opening + ([CheckSlimeCollision] + pass.calls);
  }

  /** After a teleport the slime loop of the same pass runs over the new
      level's slimes: every live slot the load yields is checked. */
  lemma TeleportChecksNewSlimes(g: Game, t: Target, rules: Rules, j: nat)
    requires j < |rules.load(t.level).slimes| && Live(rules.load(t.level).slimes[j])
    ensures CheckAttackInitiate(j) in Interaction(g, Some(t), rules).1
  {
    var (g1, pre) := CollisionChecks(g, Some(t), rules);
    EveryLiveSlimeChecked(g1.player, g1.slimes, 0, rules, j);
    var pass := SlimeLoop(g1.player, g1.slimes, 0, rules);
    assert Interaction(g, Some(t), rules).1 == pre + pass.calls;
  }

  /** handleEntities: movement then interaction, only while playing. */
  function HandleEntities(g: Game, hit: Option<Target>, rules: Rules): (r: (Game, seq<Call>))
    ensures g.state != IngamePlaying ==> r == (g, [])
    ensures r.0.state == g.state
    ensures (PlayerMove in r.1) <==> g.state == IngamePlaying
    ensures PlayerKeyboardEvent !in r.1
  {
    if g.state != IngamePlaying then (g, [])
    else
      var i := Interaction(g, hit, rules);
      MovementCallsFacts();
      (i.0, MovementCalls + i.1)
  }

  lemma MovementCallsFacts()
    ensures PlayerMove in MovementCalls && PlayerKeyboardEvent !in MovementCalls
  {
    assert MovementCalls[1] == PlayerMove;
  }

  /** While playing, every entity moves before any interaction check. */
  lemma MovementBeforeInteraction(g: Game, hit: Option<Target>, rules: Rules)
    requires g.state == IngamePlaying
    ensures var calls := HandleEntities(g, hit, rules).1;
      |calls| > |MovementCalls| && calls[..|MovementCalls|] == MovementCalls &&
      calls[|MovementCalls|] == CheckTeleporterCollision
  {
    var icalls := Interaction(g, hit, rules).1;
    assert HandleEntities(g, hit, rules).1 == MovementCalls + icalls;
  }

  /** handleWindowEvent: events of another window are ignored; a size
      change re-runs the window change. */
  function HandleWindowEvent(g: Game, windowId: nat, action: WindowAction): (r: seq<Call>)
    ensures windowId != g.windowId ==> r == []
    ensures r != [] <==> windowId == g.windowId && action == SizeChanged
  {
    if windowId != g.windowId then []
    else if action == SizeChanged then WindowChangeCalls
    else []
  }

  /** handleMouseEvent: forwarded to the menu in the menu, which leaves
      the game in the state `menuAfter` (the menu is not part of this
      model); a button press while playing reloads the level (level change,
      then window change). */
  function HandleMouseEvent(g: Game, action: MouseAction, rules: Rules, menuAfter: GameState): (r: (Game, seq<Call>))
    ensures g.state == Menu ==> r == (g.(state := menuAfter), [MenuMouseEvent])
    ensures g.state == IngamePlaying && action == ButtonDown ==>
      r == (ReloadLevel(g, rules), LevelChangeCalls + WindowChangeCalls)
    ensures g.state != Menu && !(g.state == IngamePlaying && action == ButtonDown) ==> r == (g, [])
  {
    match g.state
    case Menu => (g.(state := menuAfter), [MenuMouseEvent])
    case IngamePlaying =>
      if action == ButtonDown then (ReloadLevel(g, rules), LevelChangeCalls + WindowChangeCalls) else (g, [])
    case _ => (g, [])
  }

  /** handleKeyBoardEvent: only while playing. Escape, pressed or released,
      ends the game and is not passed on; any other key goes to the player. */
  function HandleKeyBoardEvent(g: Game, key: Key): (r: (GameState, seq<Call>))
    ensures g.state != IngamePlaying ==> r == (g.state, [])
    ensures g.state == IngamePlaying && key == Escape ==> r.0 == Exit && PlayerKeyboardEvent !in r.1
    ensures g.state == IngamePlaying && key != Escape ==> r.0 == g.state && r.1 == [PlayerKeyboardEvent]
  {
    if g.state != IngamePlaying then (g.state, [])
    else if key == Escape then (Exit, [])
    else (g.state, [PlayerKeyboardEvent])
  }

  /** handleEvents: at most one polled event per frame. The state changes
      only to Exit or to what the menu reports; the fighters change only
      by the reload of a button press while playing. */
  function HandleEvent(g: Game, ev: Option<Event>, rules: Rules, menuAfter: GameState): (r: (Game, seq<Call>))
    ensures ev.None? ==> r == (g, [])
    ensures ev == Some(Quit) ==> r.0.state == Exit && r.1 == []
    ensures r.0.state != g.state ==>
      r.0.state == Exit || (g.state == Menu && ev.Some? && ev.value.MouseEvent? && r.0.state == menuAfter)
    ensures r.0.level == g.level && r.0.player == g.player
    ensures r.0.slimes == g.slimes || (g.state == IngamePlaying && r.0 == ReloadLevel(g, rules))
    ensures PlayerKeyboardEvent in r.1 ==> g.state == IngamePlaying && r.0.state == IngamePlaying
    ensures PlayerMove !in r.1
  {
    match ev
    case None => (g, [])
    case Some(e) =>
      match e
      case Quit => (g.(state := Exit), [])
      case WindowEvent(id, action) => (g, HandleWindowEvent(g, id, action))
      case MouseEvent(action) => HandleMouseEvent(g, action, rules, menuAfter)
      case KeyEvent(_, key) =>
        var (state, calls) := HandleKeyBoardEvent(g, key);
        (g.(state := state), calls)
      case OtherEvent => (g, [])
  }

  /** What the hidden collaborators report in one frame: the teleporter
      the player stands on, if any, the polled event, if any, and the state
      the menu's mouse handler leaves the game in. */
  datatype FrameInput = FrameInput(hit: Option<Target>, event: Option<Event>, menu: GameState)

  /** One loop iteration: entities, then events, then render. */
  function Frame(g: Game, input: FrameInput, rules: Rules): (r: (Game, seq<Call>))
    ensures |r.1| >= 2 && r.1[|r.1| - 1] == RenderPresent
  {
    var (g1, ecalls) := HandleEntities(g, input.hit, rules);
    var (g2, vcalls) := HandleEvent(g1, input.event, rules, input.menu);
    (g2, ecalls + vcalls + Render(g2.state))
  }

  lemma RenderMovesNothing(state: GameState)
    ensures PlayerMove !in Render(state) && PlayerKeyboardEvent !in Render(state)
  {
  }

  /** A frame moves the entities exactly when it starts in the playing
      state. */
  lemma FrameMovesIffPlaying(g: Game, input: FrameInput, rules: Rules)
    ensures (PlayerMove in Frame(g, input, rules).1) <==> g.state == IngamePlaying
  {
    var (g1, ecalls) := HandleEntities(g, input.hit, rules);
    var (g2, vcalls) := HandleEvent(g1, input.event, rules, input.menu);
    RenderMovesNothing(g2.state);
    assert Frame(g, input, rules).1 == ecalls + vcalls + Render(g2.state);
  }

  /** A frame changes the game state only by ending the game or, in the
      menu, to what the menu reports for a mouse event; without an event it
      leaves the state alone. */
  lemma FrameStateChanges(g: Game, input: FrameInput, rules: Rules)
    ensures var state := Frame(g, input, rules).0.state;
      state == g.state || state == Exit || (g.state == Menu && state == input.menu)
    ensures input.event.None? ==> Frame(g, input, rules).0.state == g.state
  {
    var (g1, ecalls) := HandleEntities(g, input.hit, rules);
    assert Frame(g, input, rules).0 == HandleEvent(g1, input.event, rules, input.menu).0;
  }

  /** The loop run over the frames' inputs until the state is Exit (or the
      inputs run out); `frames` counts the iterations that ran. */
  datatype Run = Run(game: Game, calls: seq<Call>, frames: nat)

  function Loop(g: Game, inputs: seq<FrameInput>, rules: Rules): (r: Run)
    ensures r.frames <= |inputs|
    ensures g.state == Exit ==> r == Run(g, [], 0)
    decreases |inputs|
  {
    if g.state == Exit || inputs == [] then Run(g, [], 0)
    else
      var (g1, calls) := Frame(g, inputs[0], rules);
      var rest := Loop(g1, inputs[1..], rules);
      Run(rest.game, calls + rest.calls, rest.frames + 1)
  }

  /** startGameLoop: a level change and a window change first, then the
      loop on the reloaded level. */
  function StartGameLoop(g: Game, inputs: seq<FrameInput>, rules: Rules): (r: seq<Call>)
    ensures |r| >= |LevelChangeCalls| + |WindowChangeCalls|
    ensures r[..|LevelChangeCalls| + |WindowChangeCalls|] == LevelChangeCalls + WindowChangeCalls
  {
    LevelChangeCalls + WindowChangeCalls + Loop(ReloadLevel(g, rules), inputs, rules).calls
  }

  /** A quit event ends the loop after the frame it arrives in, whatever
      inputs follow. */
  lemma QuitEndsLoop(g: Game, inputs: seq<FrameInput>, rules: Rules)
    requires g.state != Exit && |inputs| > 0 && inputs[0].event == Some(Quit)
    ensures Loop(g, inputs, rules).frames == 1
    ensures Loop(g, inputs, rules).game.state == Exit
  {
    var (g1, calls) := HandleEntities(g, inputs[0].hit, rules);
    assert HandleEvent(g1, inputs[0].event, rules, inputs[0].menu).0.state == Exit;
  }

  /** Escape while playing ends the loop after that frame, and the player
      never receives the key. */
  lemma EscapeEndsLoop(g: Game, inputs: seq<FrameInput>, rules: Rules, down: bool)
    requires g.state == IngamePlaying && |inputs| > 0 && inputs[0].event == Some(KeyEvent(down, Escape))
    ensures Loop(g, inputs, rules).frames == 1
    ensures Loop(g, inputs, rules).game.state == Exit
    ensures PlayerKeyboardEvent !in Loop(g, inputs, rules).calls
  {
    var f := Frame(g, inputs[0], rules);
    FrameOnEscape(g, inputs[0], rules, down);
    var rest := Loop(f.0, inputs[1..], rules);
    assert rest == Run(f.0, [], 0);
    assert Loop(g, inputs, rules) == Run(rest.game, f.1 + rest.calls, 1);
    assert f.1 + rest.calls == f.1;
  }

  lemma FrameOnEscape(g: Game, input: FrameInput, rules: Rules, down: bool)
    requires g.state == IngamePlaying && input.event == Some(KeyEvent(down, Escape))
    ensures Frame(g, input, rules).0.state == Exit
    ensures PlayerKeyboardEvent !in Frame(g, input, rules).1
  {
    var (g1, ecalls) := HandleEntities(g, input.hit, rules);
    var (g2, vcalls) := HandleEvent(g1, input.event, rules, input.menu);
    assert g2.state == Exit && vcalls == [];
    RenderMovesNothing(Exit);
    assert Frame(g, input, rules).1 == ecalls + vcalls + Render(Exit);
  }

  /** A loop that starts outside the playing state moves nothing as long
      as the menu never reports play: no other event brings the game back
      into play. */
  lemma {:induction false} NoMovementUnlessPlaying(g: Game, inputs: seq<FrameInput>, rules: Rules)
    requires g.state != IngamePlaying
    requires forall i :: 0 <= i < |inputs| ==> inputs[i].menu != IngamePlaying
    ensures PlayerMove !in Loop(g, inputs, rules).calls
    decreases |inputs|
  {
    if g.state != Exit && inputs != [] {
      var (g1, calls) := Frame(g, inputs[0], rules);
      FrameStateChanges(g, inputs[0], rules);
      FrameMovesIffPlaying(g, inputs[0], rules);
      assert forall i :: 0 <= i < |inputs[1..]| ==> inputs[1..][i].menu == inputs[i + 1].menu;
      NoMovementUnlessPlaying(g1, inputs[1..], rules);
    }
  }

  /** A loop that starts in play with a frame to run moves the entities. */
  lemma PlayingLoopMoves(g: Game, inputs: seq<FrameInput>, rules: Rules)
    requires g.state == IngamePlaying && |inputs| >= 1
    ensures PlayerMove in Loop(g, inputs, rules).calls
  {
    var (g1, calls) := Frame(g, inputs[0], rules);
    FrameMovesIffPlaying(g, inputs[0], rules);
    assert Loop(g, inputs, rules).calls == calls + Loop(g1, inputs[1..], rules).calls;
  }

  /** A mouse event in the menu leaves the game in whatever state the menu
      reports. */
  lemma MenuFrame(g: Game, input: FrameInput, rules: Rules, action: MouseAction)
    requires g.state == Menu && input.event == Some(MouseEvent(action))
    ensures Frame(g, input, rules).0 == g.(state := input.menu)
  {
    assert HandleEntities(g, input.hit, rules).0 == g;
  }

  /** The menu is the way back into play: a mouse event in the menu that
      the menu answers with play makes the next frame move the entities. */
  lemma MenuStartsPlay(g: Game, inputs: seq<FrameInput>, rules: Rules, action: MouseAction)
    requires g.state == Menu && |inputs| >= 2
    requires inputs[0].event == Some(MouseEvent(action)) && inputs[0].menu == IngamePlaying
    ensures PlayerMove in Loop(g, inputs, rules).calls
  {
    var (g1, calls) := Frame(g, inputs[0], rules);
    MenuFrame(g, inputs[0], rules, action);
    PlayingLoopMoves(g1, inputs[1..], rules);
    assert Loop(g, inputs, rules).calls == calls + Loop(g1, inputs[1..], rules).calls;
  }
}
