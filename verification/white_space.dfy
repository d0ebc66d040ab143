/** The white-space level's rule (handleLevelSpecifics_kLevelWhiteSpace in
    src/interface/in-game-interface.cpp): the player's pending cell wraps
    from one border of the view to the other, the first wrap raises the
    "is-border-traversed" flag, and a raised flag arms the Red Hand Throne
    teleporter once. */
module WhiteSpace {
  import opened Geometry
  import opened LevelData
  import opened Teleporter
  import opened Wrappers

  /** Assigning a double to an int: the fraction is dropped (truncation
      toward zero). */
  function Truncate(r: real): (i: int)
    ensures r >= 0.0 ==> i as real <= r < i as real + 1.0
    ensures r < 0.0 ==> i as real - 1.0 < r <= i as real
  {
    if r >= 0.0 then r.Floor else -((-r).Floor)
  }

  /** The two borders of one axis, as the doubles the code computes. */
  datatype Bounds = Bounds(lower: real, upper: real)

  /** The column borders: half the view's width in tiles, plus one, in from
      either edge of the level. */
  function ColumnBounds(viewTileCountWidth: real, levelTileCountX: int): (b: Bounds)
    ensures b.lower + b.upper == levelTileCountX as real
  {
    Bounds(viewTileCountWidth / 2.0 + 1.0, levelTileCountX as real - viewTileCountWidth / 2.0 - 1.0)
  }

  /** The row borders: as for columns, but two in from the top edge. */
  function RowBounds(viewTileCountHeight: real, levelTileCountY: int): (b: Bounds)
    ensures b.lower + b.upper == levelTileCountY as real + 1.0
  {
    Bounds(viewTileCountHeight / 2.0 + 2.0, levelTileCountY as real - viewTileCountHeight / 2.0 - 1.0)
  }

  datatype Wrapped = Wrapped(i: int, wrapped: bool)

  /** kInternalTeleportHandler on one coordinate: at or past the lower
      border it jumps to the upper one, else at or past the upper border it
      jumps to the lower one, else it stays. */
  function WrapAxis(i: int, b: Bounds): (r: Wrapped)
    ensures r.wrapped <==> !(b.lower < i as real < b.upper)
    ensures !r.wrapped ==> r.i == i
    ensures i as real <= b.lower ==> r.i == Truncate(b.upper)
    ensures b.lower < i as real && b.upper <= i as real ==> r.i == Truncate(b.lower)
  {
    if i as real <= b.lower then Wrapped(Truncate(b.upper), true)
    else if i as real >= b.upper then Wrapped(Truncate(b.lower), true)
    else Wrapped(i, false)
  }

  /** A jump to the upper border settles when that border is not a whole
      number and lies more than one tile above the lower border: the cell
      it lands on is strictly inside, so the wrap leaves it alone. */
  lemma UpwardWrapSettles(i: int, b: Bounds)
    requires i as real <= b.lower && 0.0 <= b.lower && b.lower + 1.0 < b.upper
    requires b.upper != Truncate(b.upper) as real
    ensures WrapAxis(WrapAxis(i, b).i, b) == Wrapped(WrapAxis(i, b).i, false)
  {
  }

  /** A jump to the lower border never settles: the cell it lands on is at
      or below that border, so wrapping the same cell again sends it back
      up. */
  lemma DownwardWrapBouncesBack(i: int, b: Bounds)
    requires b.lower < i as real && b.upper <= i as real && 0.0 <= b.lower
    ensures WrapAxis(WrapAxis(i, b).i, b) == Wrapped(Truncate(b.upper), true)
  {
  }

  /** The hard-coded record the rule inserts: a throne at {52, 43} leading
      to cell {20, 11} of the initial break room. */
  const ThroneRecord: Record := TeleporterData(Point(52, 43), Point(20, 11), BreakroomInitial)

  /** What the rule reads besides the level data: the borders of both axes,
      and what a new throne is built from (the base entity's texture state
      and the configured rectangle modifier). */
  datatype Setting = Setting(columns: Bounds, rows: Bounds, throneBase: Texture, throneModifier: Rect)

  /** The level data and the Red Hand Throne pool. */
  datatype World = World(store: Store, thrones: seq<Teleporter>)

  predicate WellFormed(w: World) {
    && BoolProperty(w.store, BorderTraversedKey).Some?
    && AllTeleporterRecords(Get(w.store, RedHandThroneKind))
  }

  function BorderTraversed(w: World): bool
    requires WellFormed(w)
  {
    BoolProperty(w.store, BorderTraversedKey).value
  }

  /** The calls the rule makes on the throne pool, in order. */
  datatype Effect =
    | ThronesWindowChange                        // RedHandThrone::onWindowChange
    | ThronesLevelChange(records: seq<Record>)   // RedHandThrone::onLevelChangeAll

  /** The world after one call, the rewritten pending cell, and the calls. */
  datatype Stepped = Stepped(world: World, next: Option<Point>, effects: seq<Effect>)

  /** The flag update of one wrap: raised unless it was already raised when
      the call began. */
  function RaiseFlag(s: Store, atEntry: bool): Store {
    if !atEntry then SetProperty(s, BorderTraversedKey, BoolValue(true)) else s
  }

  /** The wrap of both coordinates of the pending cell, columns first. */
  function WrapCell(c: Point, st: Setting): (r: (Point, seq<Effect>))
    ensures |r.1| <= 2
    ensures forall e :: e in r.1 ==> e == ThronesWindowChange
    ensures r.0.x == WrapAxis(c.x, st.columns).i && r.0.y == WrapAxis(c.y, st.rows).i
    ensures r.1 == [] <==> !WrapAxis(c.x, st.columns).wrapped && !WrapAxis(c.y, st.rows).wrapped
  {
    var wx := WrapAxis(c.x, st.columns);
    var wy := WrapAxis(c.y, st.rows);
    (Point(wx.i, wy.i),
     (if wx.wrapped then [ThronesWindowChange] else []) + (if wy.wrapped then [ThronesWindowChange] else []))
  }

  /** Arming: insert the throne record, rebuild the pool from the records,
      and place the thrones in the window. */
  function Arm(w: World, st: Setting): (v: World)
    requires WellFormed(w)
    ensures WellFormed(v) && BorderTraversed(v) == BorderTraversed(w)
    ensures Get(v.store, RedHandThroneKind) == Get(w.store, RedHandThroneKind) + [ThroneRecord]
    ensures |v.thrones| == |Get(v.store, RedHandThroneKind)| > 0
    ensures v.thrones[|v.thrones| - 1].target == Some(Target(Point(20, 11), BreakroomInitial))
    ensures v.thrones[|v.thrones| - 1].texture.destCoords == Point(52, 43)
  {
    var store := Insert(w.store, RedHandThroneKind, ThroneRecord);
    var records := Get(store, RedHandThroneKind);
    World(store, PoolFromRecords(records, st.throneBase, st.throneModifier))
  }

  /** One frame of the rule. `next` is the player's pending cell, if any. */
  function Step(w: World, next: Option<Point>, st: Setting): (r: Stepped)
    requires WellFormed(w)
    ensures WellFormed(r.world)
    ensures next.None? ==> r.next.None?
    ensures next.Some? ==> r.next == Some(WrapCell(next.value, st).0)
    ensures BorderTraversed(r.world) <==>
      BorderTraversed(w) || (next.Some? && WrapCell(next.value, st).1 != [])
    ensures (BorderTraversed(w) && w.thrones == []) ==>
      Get(r.world.store, RedHandThroneKind) == Get(w.store, RedHandThroneKind) + [ThroneRecord] &&
      r.world.thrones != [] &&
      ThronesLevelChange(Get(r.world.store, RedHandThroneKind)) in r.effects
    ensures !(BorderTraversed(w) && w.thrones == []) ==>
      r.world.thrones == w.thrones &&
      Get(r.world.store, RedHandThroneKind) == Get(w.store, RedHandThroneKind) &&
      forall e :: e in r.effects ==> e == ThronesWindowChange
    ensures forall k :: Get(r.world.store, k) == Get(w.store, k) || k == RedHandThroneKind
  {
    var atEntry := BorderTraversed(w);
    var (next', wrapCalls, store) :=
      match next
      case None => (None, [], w.store)
      case Some(c) =>
        var (cell, calls) := WrapCell(c, st);
        (Some(cell), calls, if calls != [] then RaiseFlag(w.store, atEntry) else w.store);
    var wrappedWorld := World(store, w.thrones);
    if atEntry && w.thrones == [] then
      var armed := Arm(wrappedWorld, st);
      var calls := wrapCalls + [ThronesLevelChange(Get(armed.store, RedHandThroneKind)), ThronesWindowChange];
      assert calls[|wrapCalls|] == ThronesLevelChange(Get(armed.store, RedHandThroneKind));
      Stepped(armed, next', calls)
    else
      Stepped(wrappedWorld, next', wrapCalls)
  }

  /** The rule run over successive frames, one pending cell per frame. */
  function Run(w: World, frames: seq<Option<Point>>, st: Setting): (r: Stepped)
    requires WellFormed(w)
    ensures WellFormed(r.world)
    decreases |frames|
  {
    if frames == [] then Stepped(w, None, [])
    else
      var first := Step(w, frames[0], st);
      var rest := Run(first.world, frames[1..], st);
      Stepped(rest.world, rest.next, first.effects + rest.effects)
  }

  /** How many times a list of calls rebuilt the throne pool. */
  function Armings(effects: seq<Effect>): nat {
    if effects == [] then 0
    else (if effects[0].ThronesLevelChange? then 1 else 0) + Armings(effects[1..])
  }

  lemma {:induction false} ArmingsAppend(a: seq<Effect>, b: seq<Effect>)
    ensures Armings(a + b) == Armings(a) + Armings(b)
    decreases |a|
  {
    if a != [] {
      ArmingsAppend(a[1..], b);
      assert (a + b)[0] == a[0];
      assert (a + b)[1..] == a[1..] + b;
    } else {
      assert a + b == b;
    }
  }

  lemma {:induction false} OnlyWindowChangesArmNothing(a: seq<Effect>)
    requires forall e :: e in a ==> e == ThronesWindowChange
    ensures Armings(a) == 0
    decreases |a|
  {
    if a != [] {
      assert a[0] in a;
      forall e | e in a[1..] ensures e == ThronesWindowChange {
        assert e in a;
      }
      OnlyWindowChangesArmNothing(a[1..]);
    }
  }

  lemma StepArmings(w: World, next: Option<Point>, st: Setting)
    requires WellFormed(w)
    ensures Armings(Step(w, next, st).effects) == (if BorderTraversed(w) && w.thrones == [] then 1 else 0)
  {
    var r := Step(w, next, st);
    var wrapCalls := if next.None? then [] else WrapCell(next.value, st).1;
    OnlyWindowChangesArmNothing(wrapCalls);
    if BorderTraversed(w) && w.thrones == [] {
      var tail := [ThronesLevelChange(Get(r.world.store, RedHandThroneKind)), ThronesWindowChange];
      assert r.effects == wrapCalls + tail;
      ArmingsAppend(wrapCalls, tail);
      assert Armings(tail[1..]) == 0;
    } else {
      OnlyWindowChangesArmNothing(r.effects);
    }
  }

  /** The throne is armed at most once in any run, and never while a throne
      is already in the pool. */
  lemma {:induction false} ArmsAtMostOnce(w: World, frames: seq<Option<Point>>, st: Setting)
    requires WellFormed(w)
    ensures Armings(Run(w, frames, st).effects) <= 1
    ensures w.thrones != [] ==> Armings(Run(w, frames, st).effects) == 0
    decreases |frames|
  {
    if frames != [] {
      var first := Step(w, frames[0], st);
      StepArmings(w, frames[0], st);
      ArmsAtMostOnce(first.world, frames[1..], st);
      ArmingsAppend(first.effects, Run(first.world, frames[1..], st).effects);
    }
  }

  /** The first wrap raises the flag but does not arm in the same frame; the
      next frame arms, whatever the player does. */
  lemma FirstWrapArmsOnNextFrame(w: World, c: Point, later: Option<Point>, st: Setting)
    requires WellFormed(w) && !BorderTraversed(w) && w.thrones == []
    requires WrapCell(c, st).1 != []
    ensures var first := Step(w, Some(c), st);
      BorderTraversed(first.world) && first.world.thrones == [] &&
      Armings(first.effects) == 0 &&
      Armings(Step(first.world, later, st).effects) == 1
  {
    StepArmings(w, Some(c), st);
    StepArmings(Step(w, Some(c), st).world, later, st);
  }
}
