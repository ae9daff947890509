/** The Lift Hold (aerial yoke) effect: paralyses its target and shows the lift-hold marker
    while active, unless the target is a raid or an attackable NPC that is already
    immobilised. */
module EffectLiftHold {
  import opened Actors

  /** The start veto, with Java's precedence: `&&` binds tighter than `||`. */
  predicate Vetoes(kind: Kind, immobilized: bool, isRaid: bool)
  {
    (IsAttackable(kind) && immobilized) || isRaid
  }

  /** A raid is vetoed whatever its kind; otherwise only an immobilised attackable is. */
  lemma VetoCases(kind: Kind, immobilized: bool)
    ensures Vetoes(kind, immobilized, true)
    ensures !IsAttackable(kind) ==> !Vetoes(kind, immobilized, false)
    ensures IsAttackable(kind) ==> (Vetoes(kind, immobilized, false) <==> immobilized)
  {
  }

  class LiftHoldEffect {
    const effected: Creature

    constructor (effected: Creature)
      ensures this.effected == effected
    {
      this.effected := effected;
    }

    function AbnormalType(): (t: AbnormalType)
      ensures t == AerialYoke
    {
      AerialYoke
    }

    /** Starts the effect; a veto leaves the effected creature untouched. */
    method OnStart() returns (started: bool)
      modifies effected
      ensures started <==> !Vetoes(effected.kind, old(effected.immobilized), effected.isRaid)
      ensures !started ==> unchanged(effected)
      ensures started ==>
        && effected.paralyzed
        && effected.visualEffects == old(effected.visualEffects) + {SLiftHold}
        && effected.events == old(effected.events) + [ParalyzeStarted]
        && effected.immobilized == old(effected.immobilized)
        && effected.effects == old(effected.effects)
    {
      if (IsAttackable(effected.kind) && effected.immobilized) || effected.isRaid {
        return false;
      }
      effected.paralyzed := true;
      effected.events := effected.events + [ParalyzeStarted];
      effected.visualEffects := effected.visualEffects + {SLiftHold};
      return true;
    }

    /** Ends the effect: clears paralysis and the marker whatever they were before. */
    method OnExit()
      modifies effected
      ensures !effected.paralyzed
      ensures effected.visualEffects == old(effected.visualEffects) - {SLiftHold}
      ensures effected.events == old(effected.events) + [ParalyzeStopped(false)]
      ensures effected.immobilized == old(effected.immobilized)
      ensures effected.effects == old(effected.effects)
    {
      effected.paralyzed := false;
      effected.events := effected.events + [ParalyzeStopped(false)];
      effected.visualEffects := effected.visualEffects - {SLiftHold};
    }

    /** Each tick keeps the effect running and changes nothing. */
    method OnActionTime() returns (keepTicking: bool)
      ensures keepTicking
    {
      keepTicking := true;
    }
  }
}
