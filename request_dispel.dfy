/** `RequestDispel`: a player asks to cancel one of the buffs on themself or on their servitors.
    The guard chain decides whether the skill may be cancelled by the client at all; the tail
    stops the skill's effects on the player, or on the matching pet and on every summon. */
module RequestDispel {
  import opened Actors
  import opened Wrappers

  datatype TargetType = TargetSelf | TargetParty | OtherTargetType
  datatype SkillType = BuffSkill | OtherSkillType

  /** What the skill table knows about one skill level. */
  datatype SkillInfo = SkillInfo(
    canBeDispelled: bool,
    stayAfterDeath: bool,
    isDebuff: bool,
    transformId: int,
    targetType: TargetType,
    skillType: SkillType,
    isDance: bool
  )

  /** The packet body: readD, readD, readD. */
  datatype Request = Request(objectId: int, skillId: int, skillLevel: int)

  /** The transformation rule: a transformation is client-cancellable only when it is cast on
      self or party, or is a plain buff. */
  predicate TransformCancellable(s: SkillInfo)
  {
    s.transformId <= 0 || s.targetType == TargetSelf || s.targetType == TargetParty || s.skillType == BuffSkill
  }

  /** The guard chain, with the skill-table lookup `getInfo(skillId, skillLevel)` given as a map. */
  predicate MayDispel(req: Request, skills: map<(int, int), SkillInfo>, danceCancelBuff: bool)
  {
    && req.skillId > 0 && req.skillLevel > 0
    && (req.skillId, req.skillLevel) in skills
    && var s := skills[(req.skillId, req.skillLevel)];
    && s.canBeDispelled && !s.stayAfterDeath && !s.isDebuff
    && TransformCancellable(s)
    && (!s.isDance || danceCancelBuff)
  }

  /** Each guard of the chain blocks on its own. */
  lemma GuardsBlock(req: Request, skills: map<(int, int), SkillInfo>, danceCancelBuff: bool)
    ensures req.skillId <= 0 || req.skillLevel <= 0 ==> !MayDispel(req, skills, danceCancelBuff)
    ensures (req.skillId, req.skillLevel) !in skills ==> !MayDispel(req, skills, danceCancelBuff)
    ensures (req.skillId, req.skillLevel) in skills ==>
      var s := skills[(req.skillId, req.skillLevel)];
      (!s.canBeDispelled || s.stayAfterDeath || s.isDebuff || !TransformCancellable(s)
       || (s.isDance && !danceCancelBuff)) ==> !MayDispel(req, skills, danceCancelBuff)
  {
  }

  /** A dispellable, non-dance transformation buff may be cancelled exactly when it is self- or
      party-targeted or of skill type BUFF; a dance only when dances may be cancelled. */
  lemma TransformAndDanceRules(req: Request, skills: map<(int, int), SkillInfo>, danceCancelBuff: bool)
    requires req.skillId > 0 && req.skillLevel > 0 && (req.skillId, req.skillLevel) in skills
    requires var s := skills[(req.skillId, req.skillLevel)]; s.canBeDispelled && !s.stayAfterDeath && !s.isDebuff
    ensures var s := skills[(req.skillId, req.skillLevel)];
      s.transformId > 0 && !s.isDance ==>
        (MayDispel(req, skills, danceCancelBuff) <==>
          s.targetType == TargetSelf || s.targetType == TargetParty || s.skillType == BuffSkill)
    ensures var s := skills[(req.skillId, req.skillLevel)];
      s.isDance && TransformCancellable(s) ==> (MayDispel(req, skills, danceCancelBuff) <==> danceCancelBuff)
  {
  }

  /** What `stopSkillEffects(skillId)` leaves of an effect list: every effect of that skill goes,
      every other effect stays, in order. */
  function Strip(effects: seq<int>, skillId: int): (r: seq<int>)
    ensures skillId !in r
    ensures forall x :: x != skillId ==> multiset(r)[x] == multiset(effects)[x]
    ensures |r| <= |effects|
  {
    if effects == [] then []
    else
      assert effects == [effects[0]] + effects[1..];
      if effects[0] == skillId then Strip(effects[1..], skillId)
      else [effects[0]] + Strip(effects[1..], skillId)
  }

  /** Stripping works element by element, so the effects that stay keep their order. */
  lemma {:induction false} StripKeepsOrder(a: seq<int>, b: seq<int>, skillId: int)
    ensures Strip(a + b, skillId) == Strip(a, skillId) + Strip(b, skillId)
    ensures forall x :: x != skillId ==> Strip([x], skillId) == [x]
  {
    if a != [] {
      assert (a + b)[1..] == a[1..] + b;
      StripKeepsOrder(a[1..], b, skillId);
    } else {
      assert a + b == b;
    }
    forall x | x != skillId
      ensures Strip([x], skillId) == [x]
    {
      assert [x][1..] == [];
    }
  }

  /** Stopping a skill's effects twice is the same as once. */
  lemma {:induction false} StripAbsent(effects: seq<int>, skillId: int)
    requires skillId !in effects
    ensures Strip(effects, skillId) == effects
  {
    if effects != [] {
      StripAbsent(effects[1..], skillId);
    }
  }

  method StopSkillEffects(c: Creature, skillId: int)
    modifies c`effects
    ensures c.effects == Strip(old(c.effects), skillId)
  {
    c.effects := Strip(c.effects, skillId);
  }

  /** The creatures the request can touch. */
  function Reachable(activeChar: Creature?, pet: Creature?, summons: seq<Creature>): set<Creature>
  {
    (if activeChar == null then {} else {activeChar}) + (if pet == null then {} else {pet})
      + set s | s in summons
  }

  /** Whether the request stops the skill's effects on c: on the player alone when the packet
      names the player; otherwise on the pet when it is the one named, and on every summon
      whatever the packet names. */
  predicate Dispelled(c: Creature, req: Request, activeChar: Creature?, pet: Creature?,
                      summons: seq<Creature>, eligible: bool)
    reads activeChar, pet
  {
    && eligible && activeChar != null
    && if activeChar.objectId == req.objectId then c == activeChar
       else (pet != null && pet.objectId == req.objectId && c == pet) || c in summons
  }

  /** The loop over `activeChar.getSummons()`. */
  method StopEach(summons: seq<Creature>, skillId: int)
    modifies (set s | s in summons)`effects
    ensures forall c :: c in summons ==> c.effects == Strip(old(c.effects), skillId)
  {
    for i := 0 to |summons|
      invariant forall c :: c in summons ==>
        c.effects == if c in summons[..i] then Strip(old(c.effects), skillId) else old(c.effects)
    {
      var s := summons[i];
      if s in summons[..i] {
        StripAbsent(s.effects, skillId);
      }
      StopSkillEffects(s, skillId);
      assert summons[..i + 1] == summons[..i] + [s];
    }
    assert summons[..|summons|] == summons;
  }

  method RunImpl(req: Request, activeChar: Creature?, pet: Creature?, summons: seq<Creature>,
                 skills: map<(int, int), SkillInfo>, danceCancelBuff: bool)
    modifies Reachable(activeChar, pet, summons)`effects
    ensures forall c :: c in Reachable(activeChar, pet, summons) ==>
      c.effects == if Dispelled(c, req, activeChar, pet, summons, MayDispel(req, skills, danceCancelBuff))
                   then Strip(old(c.effects), req.skillId) else old(c.effects)
  {
    if req.skillId <= 0 || req.skillLevel <= 0 {
      return;
    }
    if activeChar == null {
      return;
    }
    if (req.skillId, req.skillLevel) !in skills {
      return;
    }
    var skill := skills[(req.skillId, req.skillLevel)];
    if !skill.canBeDispelled || skill.stayAfterDeath || skill.isDebuff {
      return;
    }
    if skill.transformId > 0 && skill.targetType != TargetSelf && skill.targetType != TargetParty
       && skill.skillType != BuffSkill {
      return;
    }
    if skill.isDance && !danceCancelBuff {
      return;
    }
    if activeChar.objectId == req.objectId {
      StopSkillEffects(activeChar, req.skillId);
    } else {
      var petNamed := pet != null && pet.objectId == req.objectId;
      if petNamed {
        StopSkillEffects(pet, req.skillId);
        if pet in summons {
          StripAbsent(pet.effects, req.skillId);
        }
      }
      StopEach(summons, req.skillId);
    }
  }
}
