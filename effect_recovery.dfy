/** The Recovery effect: a buff that only takes hold on players and never ticks a second time. */
module EffectRecovery {
  import opened Actors

  function AbnormalTypeOf(): (t: AbnormalType)
    ensures t == Buff
  {
    Buff
  }

  /** The start hook applies nothing and admits the effect exactly on players. */
  function OnStart(effected: Kind): (started: bool)
    ensures started <==> effected == Player
    ensures !IsNpc(effected) || !started
  {
    effected.Player?
  }

  /** The tick hook asks the scheduler to end the effect at its first action time. */
  function OnActionTime(): (keepTicking: bool)
    ensures !keepTicking
  {
    false
  }
}
