/** `L2PetData`: the stats shared by every level of one pet kind: a level-indexed table of
    per-level data, the pet's learnable skills, and the skill-level formula that picks the
    level of a skill a pet of a given level may use. */
module PetData {
  import opened JavaInt
  import opened Wrappers

  /** `L2PetSkillLearn`: skill `id` at `level` is learnt from pet level `minLevel`; level 0
      means the skill level follows the pet's level. */
  datatype PetSkillLearn = PetSkillLearn(id: int, level: int, minLevel: int)

  /** `Byte.MAX_VALUE`, the initial minimum level. */
  const BYTE_MAX: int := 127

  /** An entry that makes `getAvailableLevel` compute the level from the pet's level. */
  predicate IsAuto(t: PetSkillLearn, skillId: int)
  {
    t.id == skillId && t.level == 0
  }

  /** A fixed-level entry that a pet of level petLvl qualifies for. */
  predicate Qualifies(t: PetSkillLearn, skillId: int, petLvl: int)
  {
    t.id == skillId && t.level != 0 && t.minLevel <= petLvl
  }

  /** The level the formula gives a pet of level petLvl: a tenth of it below 70, at least 1,
      and from 70 on 7 plus one per five levels. */
  function AutoLevel(petLvl: int): (lvl: int)
    ensures lvl >= 1
  {
    if petLvl < 70 then
      var q := Quot(petLvl, 10);
      if q <= 0 then 1 else q
    else 7 + Quot(petLvl - 70, 5)
  }

  /** A higher pet level never gives a lower skill level, and the two halves of the formula
      meet at 70 without a gap. */
  lemma AutoLevelMonotone(p: int, q: int)
    requires p <= q
    ensures AutoLevel(p) <= AutoLevel(q)
    ensures AutoLevel(69) == 6 && AutoLevel(70) == 7
  {
    if q < 70 {
      if p >= 0 {
        assert p / 10 <= q / 10;
      }
    } else if p >= 70 {
      assert (p - 70) / 5 <= (q - 70) / 5;
    } else {
      assert p < 70 ==> Quot(p, 10) <= 6;
    }
  }

  /** The cap by the skill's maximum level. */
  function Cap(lvl: int, maxLvl: int): (r: int)
    ensures r <= maxLvl && r <= lvl
    ensures r == lvl || r == maxLvl
  {
    if lvl > maxLvl then maxLvl else lvl
  }

  /** The index of the first entry for skillId at level 0, if there is one. */
  function FirstAuto(skills: seq<PetSkillLearn>, skillId: int): (r: Option<nat>)
    ensures r.None? ==> forall j :: 0 <= j < |skills| ==> !IsAuto(skills[j], skillId)
    ensures r.Some? ==>
      && r.value < |skills| && IsAuto(skills[r.value], skillId)
      && forall j :: 0 <= j < r.value ==> !IsAuto(skills[j], skillId)
  {
    if skills == [] then None
    else if IsAuto(skills[0], skillId) then Some(0)
    else match FirstAuto(skills[1..], skillId)
      case None => None
      case Some(a) => Some(a + 1)
  }

  /** The largest level among the qualifying fixed-level entries, or 0 when none is larger. */
  function FixedMax(skills: seq<PetSkillLearn>, skillId: int, petLvl: int): (r: int)
    ensures r >= 0
    ensures forall j :: 0 <= j < |skills| && Qualifies(skills[j], skillId, petLvl) ==> skills[j].level <= r
    ensures r == 0 || exists j :: 0 <= j < |skills| && Qualifies(skills[j], skillId, petLvl) && skills[j].level == r
  {
    if skills == [] then 0
    else
      var init := skills[..|skills| - 1];
      var r := FixedMax(init, skillId, petLvl);
      var t := skills[|skills| - 1];
      assert forall j :: 0 <= j < |init| ==> init[j] == skills[j];
      if Qualifies(t, skillId, petLvl) && t.level > r then t.level else r
  }

  /** The first level-0 entry is the one with no level-0 entry before it. */
  lemma {:induction false} FirstAutoAt(skills: seq<PetSkillLearn>, skillId: int, i: nat)
    requires i < |skills| && IsAuto(skills[i], skillId)
    requires forall j :: 0 <= j < i ==> !IsAuto(skills[j], skillId)
    ensures FirstAuto(skills, skillId) == Some(i)
  {
    if i > 0 {
      assert !IsAuto(skills[0], skillId);
      FirstAutoAt(skills[1..], skillId, i - 1);
    }
  }

  /** What `getAvailableLevel(skillId, petLvl)` returns, with `SkillTable.getMaxLevel(skillId)`
      given as maxLvl: the formula at the first level-0 entry (whatever came before it),
      otherwise the best fixed level. */
  function AvailableLevel(skills: seq<PetSkillLearn>, skillId: int, petLvl: int, maxLvl: int): int
  {
    match FirstAuto(skills, skillId)
    case Some(_) => Cap(AutoLevel(petLvl), maxLvl)
    case None => FixedMax(skills, skillId, petLvl)
  }

  /** A skill the pet has no entry for is at level 0. */
  lemma NoEntryNoLevel(skills: seq<PetSkillLearn>, skillId: int, petLvl: int, maxLvl: int)
    requires forall j :: 0 <= j < |skills| ==> skills[j].id != skillId
    ensures AvailableLevel(skills, skillId, petLvl, maxLvl) == 0
  {
  }

  class PetData<D> {
    var levelStats: map<int, D>
    var skills: seq<PetSkillLearn>
    var load: int
    var hungryLimit: int
    var minLevel: int
    var food: seq<int>

    /** The minimum level is the lowest level ever added, or 127 when none was lower. */
    predicate Valid()
      reads this
    {
      && minLevel <= BYTE_MAX
      && (minLevel == BYTE_MAX || minLevel in levelStats)
      && forall l :: l in levelStats ==> minLevel <= l
    }

    constructor ()
      ensures levelStats == map[] && skills == []
      ensures load == 20000 && hungryLimit == 1 && minLevel == BYTE_MAX && food == []
      ensures Valid()
    {
      levelStats := map[];
      skills := [];
      load := 20000;
      hungryLimit := 1;
      minLevel := BYTE_MAX;
      food := [];
    }

    /** `addNewStat` */
    method AddNewStat(data: D, level: int)
      requires Valid()
      modifies this
      ensures Valid()
      ensures minLevel == if old(minLevel) > level then level else old(minLevel)
      ensures levelStats == old(levelStats)[level := data]
      ensures skills == old(skills) && load == old(load) && hungryLimit == old(hungryLimit) && food == old(food)
    {
      if minLevel > level {
        minLevel := level;
      }
      levelStats := levelStats[level := data];
    }

    /** `getPetLevelData`: None for a level without data. */
    function GetPetLevelData(petLevel: int): (r: Option<D>)
      reads this
      ensures r.Some? <==> petLevel in levelStats
      ensures r.Some? ==> r.value == levelStats[petLevel]
    {
      if petLevel in levelStats then Some(levelStats[petLevel]) else None
    }

    method SetLoad(load: int)
      modifies this
      ensures this.load == load
      ensures levelStats == old(levelStats) && skills == old(skills) && minLevel == old(minLevel)
      ensures hungryLimit == old(hungryLimit) && food == old(food)
    {
      this.load := load;
    }

    method SetHungryLimit(hungryLimit: int)
      modifies this
      ensures this.hungryLimit == hungryLimit
      ensures levelStats == old(levelStats) && skills == old(skills) && minLevel == old(minLevel)
      ensures load == old(load) && food == old(food)
    {
      this.hungryLimit := hungryLimit;
    }

    method SetFood(food: seq<int>)
      modifies this
      ensures this.food == food
      ensures levelStats == old(levelStats) && skills == old(skills) && minLevel == old(minLevel)
      ensures load == old(load) && hungryLimit == old(hungryLimit)
    {
      this.food := food;
    }

    /** `addNewSkill` */
    method AddNewSkill(id: int, lvl: int, petLvl: int)
      modifies this
      ensures skills == old(skills) + [PetSkillLearn(id, lvl, petLvl)]
      ensures levelStats == old(levelStats) && minLevel == old(minLevel)
      ensures load == old(load) && hungryLimit == old(hungryLimit) && food == old(food)
    {
      skills := skills + [PetSkillLearn(id, lvl, petLvl)];
    }

    /** `getAvailableLevel`, with `SkillTable.getMaxLevel(skillId)` given as maxLvl. */
    method GetAvailableLevel(skillId: int, petLvl: int, maxLvl: int) returns (lvl: int)
      ensures lvl == AvailableLevel(skills, skillId, petLvl, maxLvl)
    {
      lvl := 0;
      var i := 0;
      while i < |skills|
        invariant i <= |skills|
        invariant forall j :: 0 <= j < i ==> !IsAuto(skills[j], skillId)
        invariant lvl == FixedMax(skills[..i], skillId, petLvl)
      {
        var temp := skills[i];
        assert skills[..i + 1][..i] == skills[..i];
        if temp.id != skillId {
          i := i + 1;
          continue;
        }
        if temp.level == 0 {
          if petLvl < 70 {
            lvl := Quot(petLvl, 10);
            if lvl <= 0 {
              lvl := 1;
            }
          } else {
            lvl := 7 + Quot(petLvl - 70, 5);
          }
          if lvl > maxLvl {
            lvl := maxLvl;
          }
          FirstAutoAt(skills, skillId, i);
          return;
        } else if temp.minLevel <= petLvl {
          if temp.level > lvl {
            lvl := temp.level;
          }
        }
        i := i + 1;
      }
      assert skills[..i] == skills;
    }
  }
}
