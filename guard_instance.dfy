/** `L2GuardInstance`: a town guard. It attacks monsters only, names its dialogue pages after
    its npc id, and a periodic task brings an idle guard back towards its spawn point. */
module GuardInstance {
  import opened Wrappers
  import opened Decimal
  import opened Actors
  import opened JavaInt

  /** `getHtmlPath(npcId, val)`: "guard/<npcId>.htm" for page 0, "guard/<npcId>-<val>.htm"
      for any other page. */
  function HtmlPath(npcId: int, val: int): string
  {
    "guard/" + (if val == 0 then IntToString(npcId) else IntToString(npcId) + "-" + IntToString(val)) + ".htm"
  }

  /** Reads a page path back into npc id and page. */
  function ParseHtmlPath(s: string): (r: Option<(int, int)>)
  {
    match NumberAfter("guard/", s)
    case None => None
    case Some((npcId, rest)) =>
      if rest == ".htm" then Some((npcId, 0))
      else match NumberAfter("-", rest)
        case None => None
        case Some((val, tail)) => if tail == ".htm" && val != 0 then Some((npcId, val)) else None
  }

  /** Each npc id and page has its own path: reading the path back gives both. */
  lemma ParseHtmlPathRoundTrip(npcId: int, val: int)
    ensures ParseHtmlPath(HtmlPath(npcId, val)) == Some((npcId, val))
  {
    var n := IntToString(npcId);
    if val == 0 {
      assert HtmlPath(npcId, val) == "guard/" + n + ".htm";
      NumberAfterOf("guard/", npcId, ".htm");
    } else {
      var rest := "-" + IntToString(val) + ".htm";
      assert HtmlPath(npcId, val) == "guard/" + n + rest;
      NumberAfterOf("guard/", npcId, rest);
      NumberAfterOf("-", val, ".htm");
    }
  }

  lemma HtmlPathInjective(npcId: int, val: int, npcId': int, val': int)
    requires HtmlPath(npcId, val) == HtmlPath(npcId', val')
    ensures npcId == npcId' && val == val'
  {
    ParseHtmlPathRoundTrip(npcId, val);
    ParseHtmlPathRoundTrip(npcId', val');
  }

  /** `isAutoAttackable`: a guard attacks monsters, raid bosses included, and nothing else. */
  predicate IsAutoAttackable(attacker: Kind)
  {
    attacker == Monster
  }

  lemma OnlyMonstersAttackable(attacker: Kind)
    ensures IsAutoAttackable(attacker) <==> attacker == Monster
    ensures !IsAutoAttackable(Player) && !IsAutoAttackable(Guard) && !IsAutoAttackable(OtherAttackable)
  {
  }

  /** `isInsideRadius` with a non-strict check: within `radius` of the point, in three
      dimensions when `checkZ`, otherwise on the ground plane. */
  predicate InsideRadius(x: int, y: int, z: int, px: int, py: int, pz: int, radius: int, checkZ: bool)
  {
    var dx := px - x;
    var dy := py - y;
    var dz := pz - z;
    if checkZ then dx * dx + dy * dy + dz * dz <= radius * radius
    else dx * dx + dy * dy <= radius * radius
  }

  datatype Intention = Idle | Active | Attack | MoveTo(x: int, y: int, z: int, heading: int)

  /** What `returnHome` decides for a guard at a distance from its spawn point. */
  datatype HomeAction = Teleport | WalkBack | Stay

  function HomeDecision(x: int, y: int, z: int, sx: int, sy: int, sz: int): (a: HomeAction)
    ensures a == Teleport <==> !InsideRadius(x, y, z, sx, sy, sz, 1000, true)
    ensures a == WalkBack <==> InsideRadius(x, y, z, sx, sy, sz, 1000, true) && !InsideRadius(x, y, z, sx, sy, sz, 150, false)
    ensures a == Stay <==> InsideRadius(x, y, z, sx, sy, sz, 1000, true) && InsideRadius(x, y, z, sx, sy, sz, 150, false)
  {
    if !InsideRadius(x, y, z, sx, sy, sz, 1000, true) then Teleport
    else if !InsideRadius(x, y, z, sx, sy, sz, 150, false) then WalkBack
    else Stay
  }

  /** The ground check is the weaker of the two: a guard within 150 on the ground but far
      above or below is teleported, never left standing. */
  lemma FarAboveTeleports(x: int, y: int, z: int, sx: int, sy: int, sz: int)
    requires x == sx && y == sy && (z - sz > 1000 || sz - z > 1000)
    ensures HomeDecision(x, y, z, sx, sy, sz) == Teleport
  {
    var d := if sz - z > 0 then sz - z else z - sz;
    assert (sz - z) * (sz - z) == d * d;
    MulMono(1001, d, d);
    MulMono(1000, d, 1001);
    assert (sx - x) * (sx - x) + (sy - y) * (sy - y) == 0;
  }

  class Guard {
    const npcId: int
    const spawnX: int
    const spawnY: int
    const spawnZ: int
    const respawnEnabled: bool
    var x: int
    var y: int
    var z: int
    var decayed: bool
    /** The attackers the guard hates, by object id, with their hate. */
    var aggroList: map<int, int>
    var intention: Intention

    constructor (npcId: int, spawnX: int, spawnY: int, spawnZ: int, respawnEnabled: bool)
      ensures this.npcId == npcId && this.respawnEnabled == respawnEnabled
      ensures this.spawnX == spawnX && this.spawnY == spawnY && this.spawnZ == spawnZ
      ensures x == spawnX && y == spawnY && z == spawnZ
      ensures !decayed && aggroList == map[] && intention == Idle
    {
      this.npcId := npcId;
      this.spawnX := spawnX;
      this.spawnY := spawnY;
      this.spawnZ := spawnZ;
      this.respawnEnabled := respawnEnabled;
      x, y, z := spawnX, spawnY, spawnZ;
      decayed := false;
      aggroList := map[];
      intention := Idle;
    }

    /** `returnHome`: far away, the guard is teleported home, keeping its aggro list; within
        1000 but more than 150 from home on the ground, it forgets its aggro and walks back;
        nearer, nothing changes. */
    method ReturnHome()
      modifies this
      ensures decayed == old(decayed)
      ensures HomeDecision(old(x), old(y), old(z), spawnX, spawnY, spawnZ) == Teleport ==>
        x == spawnX && y == spawnY && z == spawnZ && aggroList == old(aggroList) && intention == old(intention)
      ensures HomeDecision(old(x), old(y), old(z), spawnX, spawnY, spawnZ) == WalkBack ==>
        x == old(x) && y == old(y) && z == old(z) && aggroList == map[] && intention == MoveTo(spawnX, spawnY, spawnZ, 0)
      ensures HomeDecision(old(x), old(y), old(z), spawnX, spawnY, spawnZ) == Stay ==>
        x == old(x) && y == old(y) && z == old(z) && aggroList == old(aggroList) && intention == old(intention)
    {
      if !InsideRadius(x, y, z, spawnX, spawnY, spawnZ, 1000, true) {
        x, y, z := spawnX, spawnY, spawnZ;
      } else if !InsideRadius(x, y, z, spawnX, spawnY, spawnZ, 150, false) {
        aggroList := map[];
        intention := MoveTo(spawnX, spawnY, spawnZ, 0);
      }
    }

    /** `ReturnTask.run`: a decayed guard that will not respawn is left alone; otherwise an
        idle guard returns home, and a busy one is left to its business. */
    method ReturnTaskRun()
      modifies this
      ensures (decayed && !respawnEnabled) || old(intention) != Idle ==>
        x == old(x) && y == old(y) && z == old(z) && aggroList == old(aggroList) && intention == old(intention)
      ensures !(decayed && !respawnEnabled) && old(intention) == Idle ==>
        var a := HomeDecision(old(x), old(y), old(z), spawnX, spawnY, spawnZ);
        && (a == Stay ==> x == old(x) && y == old(y) && z == old(z) && aggroList == old(aggroList) && intention == Idle)
        && (a == Teleport ==> x == spawnX && y == spawnY && z == spawnZ && aggroList == old(aggroList) && intention == Idle)
        && (a == WalkBack ==> aggroList == map[] && intention == MoveTo(spawnX, spawnY, spawnZ, 0))
      ensures decayed == old(decayed)
    {
      if decayed && !respawnEnabled {
        return;
      }
      if intention == Idle {
        ReturnHome();
      }
    }
  }
}
