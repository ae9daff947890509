/** `CastleSiegeManager`: the siege settings, the rule deciding whether a player may summon
    a siege unit, and the lookups of the siege at a point and of every siege. The castles are
    those of the castle manager, in its order, given as a sequence. */
module CastleSiegeManager {
  import opened Wrappers

  /** A castle's siege: whether it runs, and the clans registered to attack. */
  datatype Siege = Siege(castleId: int, isInProgress: bool, attackerClans: set<int>)

  datatype Castle = Castle(castleId: int, siege: Siege)

  /** The caller of `checkIfOkToSummon`: something other than a player, or a player with its
      clan id (0 for none) and the castle whose ground it stands on, if any. */
  datatype Caller = NotAPlayer | PlayerCaller(clanId: int, castle: Option<Castle>)

  const NOT_ON_CASTLE_GROUND := "You must be on castle ground to summon this"
  const NOT_DURING_SIEGE := "You can only summon this during a siege."
  const NOT_AN_ATTACKER := "You can only summon this as a registered attacker."

  /** The text a player is refused with, or None when the player may summon. */
  function Refusal(clanId: int, castle: Option<Castle>): (text: Option<string>)
    ensures text == Some(NOT_ON_CASTLE_GROUND) <==> castle.None? || castle.value.castleId <= 0
    ensures text == Some(NOT_DURING_SIEGE) <==>
      castle.Some? && castle.value.castleId > 0 && !castle.value.siege.isInProgress
    ensures text == Some(NOT_AN_ATTACKER) <==>
      && castle.Some? && castle.value.castleId > 0 && castle.value.siege.isInProgress
      && clanId != 0 && clanId !in castle.value.siege.attackerClans
    ensures text.None? <==>
      && castle.Some? && castle.value.castleId > 0 && castle.value.siege.isInProgress
      && (clanId == 0 || clanId in castle.value.siege.attackerClans)
  {
    if castle.None? || castle.value.castleId <= 0 then Some(NOT_ON_CASTLE_GROUND)
    else if !castle.value.siege.isInProgress then Some(NOT_DURING_SIEGE)
    else if clanId != 0 && clanId !in castle.value.siege.attackerClans then Some(NOT_AN_ATTACKER)
    else None
  }

  /** `checkIfOkToSummon`: the answer, and the message sent to the player, if any. */
  function CheckIfOkToSummon(caller: Caller, isCheckOnly: bool): (r: (bool, Option<string>))
    ensures caller.NotAPlayer? ==> r == (false, None)
    ensures caller.PlayerCaller? ==> (r.0 <==> Refusal(caller.clanId, caller.castle).None?)
    ensures r.1.Some? <==> caller.PlayerCaller? && !r.0 && !isCheckOnly
    ensures r.1.Some? ==> r.1 == Refusal(caller.clanId, caller.castle)
  {
    match caller
    case NotAPlayer => (false, None)
    case PlayerCaller(clanId, castle) =>
      var text := Refusal(clanId, castle);
      if text.None? then (true, None)
      else if isCheckOnly then (false, None)
      else (false, text)
  }

  /** A clanless player is never refused for its clan; a player in a clan is refused on an
      otherwise eligible castle exactly when its clan is not a registered attacker. */
  lemma ClanRule(clanId: int, castle: Castle, isCheckOnly: bool)
    requires castle.castleId > 0 && castle.siege.isInProgress
    ensures CheckIfOkToSummon(PlayerCaller(0, Some(castle)), isCheckOnly).0
    ensures clanId != 0 ==>
      (CheckIfOkToSummon(PlayerCaller(clanId, Some(castle)), isCheckOnly).0 <==> clanId in castle.siege.attackerClans)
  {
  }

  /** The siege settings; `load` replaces them from the configuration. */
  class CastleSiegeManager {
    var attackerMaxClans: int
    var attackerRespawnDelay: int
    var defenderMaxClans: int
    var flagMaxCount: int
    var siegeClanMinLevel: int
    var siegeLength: int
    var bloodAllianceReward: int

    constructor ()
      ensures attackerMaxClans == 500 && attackerRespawnDelay == 0 && defenderMaxClans == 500
      ensures flagMaxCount == 1 && siegeClanMinLevel == 5 && siegeLength == 120 && bloodAllianceReward == 0
    {
      attackerMaxClans := 500;
      attackerRespawnDelay := 0;
      defenderMaxClans := 500;
      flagMaxCount := 1;
      siegeClanMinLevel := 5;
      siegeLength := 120;
      bloodAllianceReward := 0;
    }
  }

  /** `getSiege(x, y, z)`, with `Siege.checkIfInZone` given as inZone: the siege of the first
      castle whose zone holds the point, or None. */
  method GetSiege(castles: seq<Castle>, x: int, y: int, z: int, inZone: (Siege, int, int, int) -> bool)
    returns (r: Option<Siege>)
    ensures r.None? <==> forall i :: 0 <= i < |castles| ==> !inZone(castles[i].siege, x, y, z)
    ensures r.Some? ==>
      exists i :: 0 <= i < |castles| && r.value == castles[i].siege && inZone(r.value, x, y, z) &&
        forall j :: 0 <= j < i ==> !inZone(castles[j].siege, x, y, z)
  {
    for i := 0 to |castles|
      invariant forall j :: 0 <= j < i ==> !inZone(castles[j].siege, x, y, z)
    {
      if inZone(castles[i].siege, x, y, z) {
        return Some(castles[i].siege);
      }
    }
    return None;
  }

  /** `getSieges`: one siege per castle, in castle order. */
  method GetSieges(castles: seq<Castle>) returns (sieges: seq<Siege>)
    ensures |sieges| == |castles|
    ensures forall i :: 0 <= i < |castles| ==> sieges[i] == castles[i].siege
  {
    sieges := [];
    for i := 0 to |castles|
      invariant |sieges| == i
      invariant forall j :: 0 <= j < i ==> sieges[j] == castles[j].siege
    {
      sieges := sieges + [castles[i].siege];
    }
  }
}
