/** The game's creatures, as far as the effects, conditions and dispel rules see them. */
module Actors {
  import opened Wrappers

  /** Where a creature sits in the class hierarchy: Player and the servitors are playable;
      Monster (which includes raid bosses), Guard and the other attackables are Attackable
      NPCs; OtherNpc covers merchants, teleporters and the like. */
  datatype Kind = Player | Summon | Pet | Monster | Guard | OtherAttackable | OtherNpc

  /** `instanceof Attackable` */
  predicate IsAttackable(k: Kind) { k == Monster || k == Guard || k == OtherAttackable }

  /** `instanceof Npc` */
  predicate IsNpc(k: Kind) { IsAttackable(k) || k == OtherNpc }

  /** The stacking group an effect reports. */
  datatype AbnormalType = AerialYoke | Buff

  /** A client-side visual marker shown on a creature. */
  datatype VisualEffect = SLiftHold | OtherVisual(id: int)

  /** Notifications a creature emits towards its AI and the broadcast layer. */
  datatype StatusEvent = ParalyzeStarted | ParalyzeStopped(removeEffects: bool)

  /** A read-only snapshot of a creature, as conditions see it through an Env. */
  datatype CreatureView = CreatureView(
    objectId: int,
    kind: Kind,
    npcId: int,          // meaningful for NPC kinds
    isAggressive: bool,  // meaningful for monsters
    reputation: int      // meaningful for players
  )

  /** A creature whose status the effects change in place. */
  class Creature {
    const objectId: int
    const kind: Kind
    const isRaid: bool
    var paralyzed: bool
    var immobilized: bool
    var visualEffects: set<VisualEffect>
    /** The skill id of each active effect, in the order they were added. */
    var effects: seq<int>
    var events: seq<StatusEvent>

    constructor (objectId: int, kind: Kind, isRaid: bool)
      ensures this.objectId == objectId && this.kind == kind && this.isRaid == isRaid
      ensures !paralyzed && !immobilized && visualEffects == {} && effects == [] && events == []
    {
      this.objectId := objectId;
      this.kind := kind;
      this.isRaid := isRaid;
      paralyzed := false;
      immobilized := false;
      visualEffects := {};
      effects := [];
      events := [];
    }
  }

  /** The evaluation context that conditions read. Conditions never change it. */
  datatype Env = Env(
    target: Option<CreatureView>,
    /** `env.player.getKnownList().getKnownCharactersInRadius(radius)`; the spatial query
        itself belongs to the known-list subsystem. */
    knownInRadius: int -> seq<CreatureView>
  )
}
