/** A teleporter entity (src/entities/teleporter.cpp): a texture on the grid
    that carries the level and cell it sends the player to. */
module Teleporter {
  import opened Geometry
  import opened LevelData
  import opened Wrappers

  /** Where a teleporter leads: the destination cell and level. */
  datatype Target = Target(destCoords: Point, level: LevelName)

  /** `target` is None until the first onLevelChange: the constructor leaves
      targetDestCoords and targetLevel unset. */
  datatype Teleporter = Teleporter(texture: Texture, destRectModifier: Rect, target: Option<Target>)

  /** Teleporter::Teleporter: the base entity built at its spawn cell, plus
      the rectangle modifier taken from the teleporter's configuration. */
  function Create(base: Texture, configModifier: Rect): (t: Teleporter)
    ensures t.texture == base && t.destRectModifier == configModifier
    ensures t.target.None?
  {
    Teleporter(base, configModifier, None)
  }

  /** Teleporter::onLevelChange: the record must be the teleporter variant
      (the dynamic_cast yields null for any other). The base entity takes
      the spawn cell first, then the destination fields are copied. */
  function OnLevelChange(t: Teleporter, rec: Record): (u: Teleporter)
    requires rec.TeleporterData?
    ensures u.texture == Geometry.OnLevelChange(t.texture, rec.destCoords)
    ensures u.texture.destCoords == rec.destCoords
    ensures u.texture.destRect == t.texture.destRect
    ensures u.target == Some(Target(rec.targetDestCoords, rec.targetLevel))
    ensures u.destRectModifier == t.destRectModifier
  {
    var moved := t.(texture := Geometry.OnLevelChange(t.texture, rec.destCoords));
    moved.(target := Some(Target(rec.targetDestCoords, rec.targetLevel)))
  }

  /** After onLevelChange a teleporter remembers nothing of its previous
      level: two teleporters that share texture state and modifier end up
      equal whatever their old destinations. */
  lemma LevelChangeReplacesTarget(t: Teleporter, s: Teleporter, rec: Record)
    requires rec.TeleporterData?
    requires t.texture.destRect == s.texture.destRect && t.texture.srcRect == s.texture.srcRect
    requires t.destRectModifier == s.destRectModifier
    ensures OnLevelChange(t, rec) == OnLevelChange(s, rec)
  {
  }

  /** A level change applied twice with the same record is a level change
      applied once. */
  lemma LevelChangeIdempotent(t: Teleporter, rec: Record)
    requires rec.TeleporterData?
    ensures OnLevelChange(OnLevelChange(t, rec), rec) == OnLevelChange(t, rec)
  {
  }

  predicate AllTeleporterRecords(records: seq<Record>) {
    forall i :: 0 <= i < |records| ==> records[i].TeleporterData?
  }

  /** A pool re-populated from its records: one teleporter per record, built
      at the record's cell and then given the record. (The pool's own
      onLevelChangeAll is not part of this model; this is what it is taken
      to do.) `base` is the texture state the base constructor leaves. */
  function PoolFromRecords(records: seq<Record>, base: Texture, configModifier: Rect): (pool: seq<Teleporter>)
    requires AllTeleporterRecords(records)
    ensures |pool| == |records|
    ensures forall i :: 0 <= i < |pool| ==>
      pool[i].texture.destCoords == records[i].destCoords &&
      pool[i].target == Some(Target(records[i].targetDestCoords, records[i].targetLevel)) &&
      pool[i].destRectModifier == configModifier
  {
    seq(|records|, i requires 0 <= i < |records| =>
      OnLevelChange(Create(base.(destCoords := records[i].destCoords), configModifier), records[i]))
  }
}
