/** The combat outcome rule (Game::onEntityAnimation in src/game.cpp): an
    entity asks for an animation, possibly because of another entity; a
    "damaged" request costs hit points only while the other entity is in
    its attack animation, and hit points at or below zero turn the request
    into death. */
module Combat {

  /** AnimationType; the values the rule names, and any other. */
  datatype AnimationType = Attack | Damaged | Death | OtherAnimation(id: nat)

  /** EntitySecondaryStats: hit points, and the other stats the damage
      formula reads (left abstract). */
  datatype Stats = Stats(hp: int, others: seq<int>)

  /** The part of an animated entity the rule reads and writes. */
  datatype Fighter = Fighter(stats: Stats, currAnimation: AnimationType)

  /** What the rule does to the active entity: its updated stats, and the
      animation type handed to NextAnimationData::update. */
  datatype Outcome = Outcome(active: Fighter, committed: AnimationType)

  /** calculateFinalizedPhysicalDamage is not part of this model: it is any
      function from (attacker's stats, defender's stats) to an amount. */
  type DamageFormula = (Stats, Stats) -> int

  /** The branch that deducts hit points: a "damaged" request while the
      other entity is attacking. */
  predicate DamageLands(requested: AnimationType, passive: Fighter) {
    requested == Damaged && passive.currAnimation == Attack
  }

  function OnEntityAnimation(requested: AnimationType, active: Fighter, passive: Fighter, damage: DamageFormula): (o: Outcome)
    ensures o.active.currAnimation == active.currAnimation
    ensures o.active.stats.others == active.stats.others
    ensures DamageLands(requested, passive) ==>
      o.active.stats.hp == active.stats.hp - damage(passive.stats, active.stats)
    ensures !DamageLands(requested, passive) ==> o.active == active && o.committed == requested
    ensures o.committed == requested || o.committed == Death
    ensures o.committed == Death && requested != Death ==>
      DamageLands(requested, passive) && o.active.stats.hp <= 0
    ensures DamageLands(requested, passive) && o.active.stats.hp <= 0 ==> o.committed == Death
  {
    if DamageLands(requested, passive) then
      var hp := active.stats.hp - damage(passive.stats, active.stats);
      var hurt := active.(stats := active.stats.(hp := hp));
      Outcome(hurt, if hp <= 0 then Death else requested)
    else
      Outcome(active, requested)
  }

  /** Hit points change iff a "damaged" request meets an attacking entity
      (for a formula that deals a non-zero amount). */
  lemma HpChangesOnlyWhenHitDuringAttack(requested: AnimationType, active: Fighter, passive: Fighter, damage: DamageFormula)
    requires damage(passive.stats, active.stats) != 0
    ensures OnEntityAnimation(requested, active, passive, damage).active.stats.hp != active.stats.hp
      <==> (requested == Damaged && passive.currAnimation == Attack)
  {
  }

  /** A hit that leaves exactly zero hit points is fatal, never "damaged". */
  lemma ExactThresholdIsDeath(active: Fighter, passive: Fighter, damage: DamageFormula)
    requires passive.currAnimation == Attack
    requires damage(passive.stats, active.stats) == active.stats.hp
    ensures OnEntityAnimation(Damaged, active, passive, damage).committed == Death
    ensures OnEntityAnimation(Damaged, active, passive, damage).active.stats.hp == 0
  {
  }

  /** A hit that leaves hit points commits "damaged". */
  lemma SurvivedHitIsDamaged(active: Fighter, passive: Fighter, damage: DamageFormula)
    requires passive.currAnimation == Attack
    requires damage(passive.stats, active.stats) < active.stats.hp
    ensures OnEntityAnimation(Damaged, active, passive, damage).committed == Damaged
  {
  }

  /** Outside its attack animation an entity deals no damage at all, even to
      an entity already at or below zero hit points. */
  lemma NoDamageOutsideAttack(requested: AnimationType, active: Fighter, passive: Fighter, damage: DamageFormula)
    requires passive.currAnimation != Attack
    ensures OnEntityAnimation(requested, active, passive, damage) == Outcome(active, requested)
  {
  }
}
