/** `ConditionTargetAggro`: passes for a monster whose aggressiveness matches the configured
    flag, and for a player with negative reputation. */
module ConditionTargetAggro {
  import opened Actors
  import opened Wrappers

  function Test(isAggro: bool, env: Env): (r: bool)
    ensures env.target.Some? && env.target.value.kind == Monster ==>
              (r <==> env.target.value.isAggressive == isAggro)
    ensures env.target.Some? && env.target.value.kind == Player ==> (r <==> env.target.value.reputation < 0)
    ensures env.target.None? || (env.target.value.kind != Monster && env.target.value.kind != Player) ==> !r
  {
    match env.target
    case None => false
    case Some(t) =>
      if t.kind == Monster then t.isAggressive == isAggro
      else if t.kind == Player then t.reputation < 0
      else false
  }

  /** On a monster the two configurations are complementary; on a player they agree;
      on anything else both fail. */
  lemma ConfigurationsCompared(env: Env)
    ensures env.target.Some? && env.target.value.kind == Monster ==> Test(true, env) != Test(false, env)
    ensures env.target.Some? && env.target.value.kind != Monster ==> Test(true, env) == Test(false, env)
    ensures env.target.None? ==> !Test(true, env) && !Test(false, env)
  {
  }
}
