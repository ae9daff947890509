/** `ConditionPlayerRangeFromNpc`: passes when an NPC with the configured id is among the
    player's known characters within the configured radius. */
module ConditionPlayerRangeFromNpc {
  import opened Actors

  /** The early-return search over the known characters. */
  function FindNpc(npcId: int, cs: seq<CreatureView>): (found: bool)
    ensures found <==> exists i :: 0 <= i < |cs| && IsNpc(cs[i].kind) && cs[i].npcId == npcId
  {
    if cs == [] then false
    else if IsNpc(cs[0].kind) && cs[0].npcId == npcId then true
    else FindNpc(npcId, cs[1..])
  }

  function Test(npcId: int, radius: int, env: Env): (r: bool)
    ensures npcId == 0 || radius == 0 ==> !r
    ensures npcId != 0 && radius != 0 ==>
              (r <==> exists c :: c in env.knownInRadius(radius) && IsNpc(c.kind) && c.npcId == npcId)
  {
    if npcId == 0 || radius == 0 then false
    else FindNpc(npcId, env.knownInRadius(radius))
  }

  /** Only NPCs count: a known list without NPCs never satisfies the condition. */
  lemma NonNpcsNeverMatch(npcId: int, cs: seq<CreatureView>)
    requires forall i :: 0 <= i < |cs| ==> !IsNpc(cs[i].kind)
    ensures !FindNpc(npcId, cs)
  {
  }

  /** The order in which the known list is enumerated does not matter. */
  lemma OrderIrrelevant(npcId: int, a: seq<CreatureView>, b: seq<CreatureView>)
    requires multiset(a) == multiset(b)
    ensures FindNpc(npcId, a) == FindNpc(npcId, b)
  {
    if FindNpc(npcId, a) {
      var i :| 0 <= i < |a| && IsNpc(a[i].kind) && a[i].npcId == npcId;
      assert a[i] in multiset(b);
      var j :| 0 <= j < |b| && b[j] == a[i];
    }
    if FindNpc(npcId, b) {
      var i :| 0 <= i < |b| && IsNpc(b[i].kind) && b[i].npcId == npcId;
      assert b[i] in multiset(a);
      var j :| 0 <= j < |a| && a[j] == b[i];
    }
  }
}
