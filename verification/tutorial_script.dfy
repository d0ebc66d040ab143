/** The tutorial level's script (handleLevelSpecifics_kLevelTutorial_0 in
    src/interface/in-game-interface.cpp): a "progress" counter that starts
    negative, counts up once per frame to zero, and then advances through
    stages 0..7, each gated by the player's position. */
module TutorialScript {
  import opened Geometry
  import opened LevelData
  import opened Dialogue
  import opened Wrappers

  /** The initial progress value, `(-FPS) >> 1`: an arithmetic right shift,
      which rounds toward minus infinity. */
  function InitialProgress(fps: int): (p: int)
    ensures 2 * p <= -fps < 2 * p + 2
    ensures fps > 0 ==> p < 0
  {
    (-fps) / 2
  }

  /** The bounds of one axis of a guard; -1 on either side means the side is
      unbounded. */
  datatype Limits = Limits(lo: int, hi: int)

  /** isTargetInRange: every bound is either -1 or met, inclusively. */
  predicate IsTargetInRange(target: Point, xLim: Limits, yLim: Limits) {
    && (xLim.lo == -1 || xLim.lo <= target.x)
    && (xLim.hi == -1 || target.x <= xLim.hi)
    && (yLim.lo == -1 || yLim.lo <= target.y)
    && (yLim.hi == -1 || target.y <= yLim.hi)
  }

  /** Loosening a bound to -1 never shuts a target out. */
  lemma UnboundingWidensRange(target: Point, xLim: Limits, yLim: Limits)
    requires IsTargetInRange(target, xLim, yLim)
    ensures IsTargetInRange(target, Limits(-1, xLim.hi), yLim)
    ensures IsTargetInRange(target, Limits(xLim.lo, -1), yLim)
    ensures IsTargetInRange(target, xLim, Limits(-1, yLim.hi))
    ensures IsTargetInRange(target, xLim, Limits(yLim.lo, -1))
  {
  }

  /** A consequence of the -1 convention: a bound of -1 cannot be meant
      literally. An upper column bound of -1 constrains nothing, so a range
      meant to end at column -1 admits every column from its lower bound
      on, however far right. */
  lemma MinusOneBoundIsNotLiteral(target: Point, xLo: int, yLim: Limits)
    ensures IsTargetInRange(target, Limits(xLo, -1), yLim) <==>
      (xLo == -1 || xLo <= target.x) && IsTargetInRange(target, Limits(-1, -1), yLim)
  {
  }

  /** The door guards of stages 2 and 3 admit exactly four cells each. */
  lemma DoorGuardsAreTwoByTwo(c: Point)
    ensures IsTargetInRange(c, Guard(2).0, Guard(2).1) <==>
      c in {Point(23, 88), Point(23, 89), Point(24, 88), Point(24, 89)}
    ensures IsTargetInRange(c, Guard(3).0, Guard(3).1) <==>
      c in {Point(39, 76), Point(39, 77), Point(40, 76), Point(40, 77)}
  {
  }

  /** The guard of each stage 1..7, as (x limits, y limits). Every guard
      bounds the row from above: a player below that row never triggers the
      stage, wherever the player stands horizontally. */
  function Guard(stage: int): (g: (Limits, Limits))
    requires 1 <= stage <= 7
    ensures g.1.hi >= 0
    ensures forall c: Point :: c.y > g.1.hi ==> !IsTargetInRange(c, g.0, g.1)
  {
    match stage
    case 1 => (Limits(-1, -1), Limits(-1, 89))
    case 2 => (Limits(23, 24), Limits(88, 89))
    case 3 => (Limits(39, 40), Limits(76, 77))
    case 4 => (Limits(-1, 36), Limits(67, 73))
    case 5 => (Limits(-1, 27), Limits(67, 73))
    case 6 => (Limits(-1, 18), Limits(67, 73))
    case _ => (Limits(-1, 9), Limits(67, 73))
  }

  /** The hard-coded slime waves of stages 4, 5 and 6, as written (stage 6
      lists cell {28, 68} twice). */
  const Wave4: seq<Point> := [Point(27, 70)]
  const Wave5: seq<Point> := [Point(17, 68), Point(18, 70), Point(17, 72)]
  const Wave6: seq<Point> := [Point(8, 68), Point(9, 70), Point(8, 72), Point(28, 68), Point(27, 70), Point(28, 68)]

  predicate HasWave(stage: int) {
    4 <= stage <= 6
  }

  function Wave(stage: int): seq<Point>
    requires HasWave(stage)
  {
    if stage == 4 then Wave4 else if stage == 5 then Wave5 else Wave6
  }

  /** The generic spawn records of a list of cells. */
  function GenericRecords(cells: seq<Point>): (recs: seq<Record>)
    ensures |recs| == |cells|
    ensures forall i :: 0 <= i < |recs| ==> recs[i] == Generic(cells[i])
  {
    seq(|cells|, i requires 0 <= i < |cells| => Generic(cells[i]))
  }

  lemma WaveSizes()
    ensures |Wave(4)| == 1 && |Wave(5)| == 3 && |Wave(6)| == 6
    ensures Wave(6)[3] == Wave(6)[5] == Point(28, 68)
  {
  }

  /** What the player is doing: standing on a cell, possibly moving to a
      next one (pNextDestCoords). */
  datatype PlayerView = PlayerView(destCoords: Point, nextDestCoords: Option<Point>)

  /** The cell guards test: the pending next cell when there is one. */
  function GuardedCell(pv: PlayerView): (c: Point)
    ensures pv.nextDestCoords.Some? ==> c == pv.nextDestCoords.value
    ensures pv.nextDestCoords.None? ==> c == pv.destCoords
  {
    pv.nextDestCoords.GetOr(pv.destCoords)
  }

  predicate GuardHolds(stage: int, pv: PlayerView)
    requires 1 <= stage <= 7
  {
    IsTargetInRange(GuardedCell(pv), Guard(stage).0, Guard(stage).1)
  }

  /** The calls the script makes on its collaborators, in order. */
  datatype Effect =
    | PlayerMoveEndInvalidated              // Player::onMoveEnd(kInvalidated)
    | PlayerRunningOff                      // Player::onRunningToggled(false)
    | Enqueue(batch: Batch)                 // IngameDialogueBox::enqueueContents
    | SlimesLevelChange(records: seq<Record>) // Slime::onLevelChangeAll
    | SlimesWindowChange                    // Slime::onWindowChange on each slime

  /** The level data after one call, and the calls made. */
  datatype Stepped = Stepped(store: Store, effects: seq<Effect>)

  predicate HasProgress(s: Store) {
    IntProperty(s, ProgressKey).Some?
  }

  function Progress(s: Store): int
    requires HasProgress(s)
  {
    IntProperty(s, ProgressKey).value
  }

  /** How many dialogue batches a list of calls enqueues. */
  function DialogueCount(effects: seq<Effect>): (n: nat)
    ensures n <= |effects|
  {
    if effects == [] then 0
    else (if effects[0].Enqueue? then 1 else 0) + DialogueCount(effects[1..])
  }

  lemma {:induction false} DialogueCountAppend(a: seq<Effect>, b: seq<Effect>)
    ensures DialogueCount(a + b) == DialogueCount(a) + DialogueCount(b)
    decreases |a|
  {
    if a != [] {
      DialogueCountAppend(a[1..], b);
      assert (a + b)[0] == a[0];
      assert (a + b)[1..] == a[1..] + b;
    } else {
      assert a + b == b;
    }
  }

  /** proceed(): stores progress + 1. */
  function Proceed(s: Store, p: int): Store {
    SetProperty(s, ProgressKey, IntValue(p + 1))
  }

  /** The calls of a stage that fires, in order: the player is halted
      (stages 1..7, by isPlayerInRange), the stage's batch is enqueued, and
      on a wave stage the slimes are reloaded from the wave's records and
      placed in the window. No other stage calls the slimes. */
  function StageCalls(stage: int): seq<Effect>
    requires 0 <= stage <= 7
  {
    (if stage == 0 then [] else [PlayerMoveEndInvalidated, PlayerRunningOff]) +
    [Enqueue(BatchFor(stage))] +
    (if HasWave(stage) then [SlimesLevelChange(GenericRecords(Wave(stage))), SlimesWindowChange] else [])
  }

  /** A stage whose guard holds: halt the player (stages 1..7 only, through
      isPlayerInRange), enqueue the stage's batch, replace the slime records
      by the stage's wave and reload the slimes (stages 4..6), proceed. */
  function Fire(s: Store, stage: int): (r: Stepped)
    requires 0 <= stage <= 7
    ensures IntProperty(r.store, ProgressKey) == Some(stage + 1)
    ensures r.effects == StageCalls(stage)
    ensures DialogueCount(r.effects) == 1 && Enqueue(BatchFor(stage)) in r.effects
    ensures HasWave(stage) ==> Get(r.store, SlimeKind) == GenericRecords(Wave(stage))
    ensures forall k :: k != SlimeKind ==> Get(r.store, k) == Get(s, k)
    ensures !HasWave(stage) ==> Get(r.store, SlimeKind) == Get(s, SlimeKind)
    ensures forall key :: key != ProgressKey && key in s.properties ==>
      key in r.store.properties && r.store.properties[key] == s.properties[key]
  {
    var halt := if stage == 0 then [] else [PlayerMoveEndInvalidated, PlayerRunningOff];
    if HasWave(stage) then
      var recs := GenericRecords(Wave(stage));
      var replaced := InsertAll(Erase(s, SlimeKind), SlimeKind, recs);
      EraseThenInsertAll(s, SlimeKind, recs);
      var tail := [Enqueue(BatchFor(stage)), SlimesLevelChange(recs), SlimesWindowChange];
      assert DialogueCount(tail[2..]) == 0;
      assert DialogueCount(tail[1..]) == 0;
      var effects := halt + tail;
      assert effects == halt + [Enqueue(BatchFor(stage))] + tail[1..];
      DialogueCountAppend(halt, tail);
      assert effects[|halt|] == Enqueue(BatchFor(stage));
      Stepped(Proceed(replaced, stage), effects)
    else
      var effects := halt + [Enqueue(BatchFor(stage))];
      DialogueCountAppend(halt, [Enqueue(BatchFor(stage))]);
      assert effects[|halt|] == Enqueue(BatchFor(stage));
      Stepped(Proceed(s, stage), effects)
  }

  /** One frame of the script. */
  function Step(s: Store, pv: PlayerView): (r: Stepped)
    requires HasProgress(s)
    ensures HasProgress(r.store)
    ensures Progress(r.store) == Progress(s) || Progress(r.store) == Progress(s) + 1
    ensures Progress(s) < 0 ==>
      Progress(r.store) == Progress(s) + 1 && r.effects == [] && r.store.records == s.records
    ensures Progress(s) == 0 ==> Progress(r.store) == 1
    ensures 0 <= Progress(s) <= 7 && Progress(r.store) == Progress(s) + 1 ==>
      r.effects == StageCalls(Progress(s))
    ensures 1 <= Progress(s) <= 7 ==>
      (Progress(r.store) == Progress(s) + 1 <==> GuardHolds(Progress(s), pv))
    ensures 1 <= Progress(s) <= 7 && !GuardHolds(Progress(s), pv) ==> r == Stepped(s, [])
    ensures 0 <= Progress(s) <= 7 && Progress(r.store) == Progress(s) + 1 ==>
      DialogueCount(r.effects) == 1 && Enqueue(BatchFor(Progress(s))) in r.effects
    ensures Progress(s) >= 8 ==> r == Stepped(s, [])
    ensures HasWave(Progress(s)) && Progress(r.store) == Progress(s) + 1 ==>
      Get(r.store, SlimeKind) == GenericRecords(Wave(Progress(s)))
    ensures !(HasWave(Progress(s)) && Progress(r.store) == Progress(s) + 1) ==>
      r.store.records == s.records
    ensures forall key :: key != ProgressKey && key in s.properties ==>
      key in r.store.properties && r.store.properties[key] == s.properties[key]
  {
    var p := Progress(s);
    if p == 0 then
      Fire(s, 0)
    else if 1 <= p <= 7 then
      if GuardHolds(p, pv) then Fire(s, p) else Stepped(s, [])
    else if p < 0 then
      Stepped(Proceed(s, p), [])
    else
      Stepped(s, [])
  }

  /** The script run over successive frames, one player view per frame. */
  function Run(s: Store, frames: seq<PlayerView>): (r: Stepped)
    requires HasProgress(s)
    ensures HasProgress(r.store)
    decreases |frames|
  {
    if frames == [] then Stepped(s, [])
    else
      var first := Step(s, frames[0]);
      var rest := Run(first.store, frames[1..]);
      Stepped(rest.store, first.effects + rest.effects)
  }

  /** Progress never goes down, and goes up by at most one per frame. */
  lemma {:induction false} RunMonotone(s: Store, frames: seq<PlayerView>)
    requires HasProgress(s)
    ensures Progress(s) <= Progress(Run(s, frames).store) <= Progress(s) + |frames|
    decreases |frames|
  {
    if frames != [] {
      RunMonotone(Step(s, frames[0]).store, frames[1..]);
    }
  }

  /** Any progress of 8 or more is a fixed point: nothing changes and
      nothing is called, whatever the player does. */
  lemma {:induction false} FinishedScriptIsFixed(s: Store, frames: seq<PlayerView>)
    requires HasProgress(s) && Progress(s) >= 8
    ensures Run(s, frames) == Stepped(s, [])
    decreases |frames|
  {
    if frames != [] {
      FinishedScriptIsFixed(s, frames[1..]);
    }
  }

  /** From a negative progress p it takes exactly -p frames, calling
      nothing, to reach stage 0. */
  lemma {:induction false} CooldownReachesZero(s: Store, frames: seq<PlayerView>)
    requires HasProgress(s) && Progress(s) < 0 && |frames| == -Progress(s)
    ensures Progress(Run(s, frames).store) == 0
    ensures Run(s, frames).effects == []
    ensures Run(s, frames).store.records == s.records
    decreases |frames|
  {
    var first := Step(s, frames[0]);
    if Progress(first.store) < 0 {
      CooldownReachesZero(first.store, frames[1..]);
    } else {
      assert frames[1..] == [];
    }
  }

  /** Before the cooldown ends, progress stays negative. */
  lemma {:induction false} CooldownNotOverEarly(s: Store, frames: seq<PlayerView>)
    requires HasProgress(s) && |frames| < -Progress(s)
    ensures Progress(Run(s, frames).store) == Progress(s) + |frames| < 0
    ensures Run(s, frames).effects == []
    decreases |frames|
  {
    if frames != [] {
      CooldownNotOverEarly(Step(s, frames[0]).store, frames[1..]);
    }
  }

  /** Progress clamped to the stages that enqueue dialogue. */
  function StagesPassed(p: int): int {
    if p < 0 then 0 else if p > 8 then 8 else p
  }

  /** Each stage's dialogue fires exactly once: over any run the number of
      batches enqueued is the number of stages passed. */
  lemma {:induction false} DialoguePerStageOnce(s: Store, frames: seq<PlayerView>)
    requires HasProgress(s)
    ensures DialogueCount(Run(s, frames).effects) ==
      StagesPassed(Progress(Run(s, frames).store)) - StagesPassed(Progress(s))
    decreases |frames|
  {
    if frames != [] {
      var first := Step(s, frames[0]);
      DialoguePerStageOnce(first.store, frames[1..]);
      DialogueCountAppend(first.effects, Run(first.store, frames[1..]).effects);
    }
  }

  /** A guard that never holds keeps the script at its stage, silently. */
  lemma {:induction false} UnmetGuardHolds(s: Store, frames: seq<PlayerView>)
    requires HasProgress(s) && 1 <= Progress(s) <= 7
    requires forall i :: 0 <= i < |frames| ==> !GuardHolds(Progress(s), frames[i])
    ensures Run(s, frames) == Stepped(s, [])
    decreases |frames|
  {
    if frames != [] {
      assert !GuardHolds(Progress(s), frames[0]);
      UnmetGuardHolds(s, frames[1..]);
    }
  }
}
