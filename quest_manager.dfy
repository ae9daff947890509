/** `QuestManager`: the registry of loaded quest scripts. Quests are filed by name; a quest
    added under a name already in use replaces the old one after unloading it. What the
    registry asks of the quests themselves (unload, save their global data, reload) is
    recorded as a log of requests, since the quest scripts are not part of this model. */
module QuestManager {
  import opened Wrappers

  /** A loaded quest, as the registry sees it. */
  datatype Quest = Quest(name: string, id: int)

  /** A request the registry makes of a quest. */
  datatype QuestRequest = UnloadRequested(quest: Quest) | SaveRequested(quest: Quest) | ReloadRequested(quest: Quest)

  /** `addQuest` either files the quest or throws IllegalArgumentException. */
  datatype AddResult = Added | IllegalArgument(message: string)

  const NULL_QUEST := "Quest argument cannot be null"

  /** What `getQuest(int)` returns when it walks the quests in `order`, the iteration order
      of the map's keys: the first quest with that id, or None. */
  function QuestById(quests: map<string, Quest>, order: seq<string>, id: int): (r: Option<Quest>)
    requires forall k :: 0 <= k < |order| ==> order[k] in quests
    ensures r.None? <==> forall k :: 0 <= k < |order| ==> quests[order[k]].id != id
    ensures r.Some? ==>
      exists k :: 0 <= k < |order| && r.value == quests[order[k]] && r.value.id == id &&
        forall k' :: 0 <= k' < k ==> quests[order[k']].id != id
  {
    if order == [] then None
    else if quests[order[0]].id == id then Some(quests[order[0]])
    else
      var r := QuestById(quests, order[1..], id);
      if r.Some? then
        var k :| 0 <= k < |order| - 1 && r.value == quests[order[1..][k]] && r.value.id == id &&
          forall k' :: 0 <= k' < k ==> quests[order[1..][k']].id != id;
        assert r.value == quests[order[k + 1]];
        r
      else r
  }

  /** When `order` lists every name in the map, the search fails exactly when no stored
      quest has the id; which quest it finds may depend on the order, whether it finds one
      does not. */
  lemma QuestByIdComplete(quests: map<string, Quest>, order: seq<string>, id: int)
    requires forall k :: 0 <= k < |order| ==> order[k] in quests
    requires forall name :: name in quests ==> name in order
    ensures QuestById(quests, order, id).None? <==> forall name :: name in quests ==> quests[name].id != id
  {
    if QuestById(quests, order, id).None? {
      forall name | name in quests
        ensures quests[name].id != id
      {
        var k :| 0 <= k < |order| && order[k] == name;
      }
    }
  }

  class QuestManager {
    var quests: map<string, Quest>
    var requests: seq<QuestRequest>

    /** Every quest is filed under its own name. */
    predicate Valid()
      reads this
    {
      forall name :: name in quests ==> quests[name].name == name
    }

    constructor ()
      ensures quests == map[] && requests == [] && Valid()
    {
      quests := map[];
      requests := [];
    }

    /** `getQuest(String)`: None stands for null. */
    function GetQuest(name: string): (r: Option<Quest>)
      reads this
      ensures r.Some? <==> name in quests
      ensures r.Some? ==> r.value == quests[name]
      ensures Valid() && r.Some? ==> r.value.name == name
    {
      if name in quests then Some(quests[name]) else None
    }

    /** `getQuest(int)`, walking the quests in `order`. */
    method GetQuestById(id: int, order: seq<string>) returns (r: Option<Quest>)
      requires forall k :: 0 <= k < |order| ==> order[k] in quests
      ensures r == QuestById(quests, order, id)
    {
      var k := 0;
      while k < |order|
        invariant k <= |order|
        invariant QuestById(quests, order, id) == QuestById(quests, order[k..], id)
      {
        var q := quests[order[k]];
        assert order[k..][0] == order[k] && order[k..][1..] == order[k + 1..];
        if q.id == id {
          return Some(q);
        }
        k := k + 1;
      }
      return None;
    }

    /** `addQuest`: None stands for a null argument, which is refused before anything
        changes. A quest already filed under the new quest's name is asked to unload
        before the new one takes its place. */
    method AddQuest(newQuest: Option<Quest>) returns (r: AddResult)
      requires Valid()
      modifies this
      ensures Valid()
      ensures newQuest.None? ==>
        r == IllegalArgument(NULL_QUEST) && quests == old(quests) && requests == old(requests)
      ensures newQuest.Some? ==>
        var q := newQuest.value;
        && r == Added
        && quests == old(quests)[q.name := q]
        && requests == old(requests) + (if q.name in old(quests) then [UnloadRequested(old(quests)[q.name])] else [])
    {
      if newQuest.None? {
        return IllegalArgument(NULL_QUEST);
      }
      var q := newQuest.value;
      var old_ := GetQuest(q.name);
      if old_.Some? {
        requests := requests + [UnloadRequested(old_.value)];
      }
      quests := quests[q.name := q];
      return Added;
    }

    /** `removeQuest`: whether a quest was filed under q's name; none is afterwards. */
    method RemoveQuest(q: Quest) returns (removed: bool)
      requires Valid()
      modifies this
      ensures Valid()
      ensures removed <==> q.name in old(quests)
      ensures quests == old(quests) - {q.name} && q.name !in quests
      ensures requests == old(requests)
    {
      removed := q.name in quests;
      quests := quests - {q.name};
    }

    /** `unload`: the quest saves its global data, then leaves the registry. */
    method Unload(q: Quest) returns (removed: bool)
      requires Valid()
      modifies this
      ensures Valid()
      ensures removed <==> q.name in old(quests)
      ensures quests == old(quests) - {q.name}
      ensures requests == old(requests) + [SaveRequested(q)]
    {
      requests := requests + [SaveRequested(q)];
      removed := RemoveQuest(q);
    }

    /** `reload(String)`: false when no quest has that name; otherwise the quest's own
        reload result, given as `reloaded`. */
    method ReloadByName(name: string, reloaded: bool) returns (ok: bool)
      modifies this
      ensures quests == old(quests)
      ensures name !in quests ==> !ok && requests == old(requests)
      ensures name in quests ==> ok == reloaded && requests == old(requests) + [ReloadRequested(quests[name])]
    {
      var q := GetQuest(name);
      if q.None? {
        return false;
      }
      requests := requests + [ReloadRequested(q.value)];
      return reloaded;
    }

    /** `reload(int)`: false when the search by id finds nothing; otherwise the reload result
        of the quest it finds. */
    method ReloadById(id: int, order: seq<string>, reloaded: bool) returns (ok: bool)
      requires forall k :: 0 <= k < |order| ==> order[k] in quests
      modifies this
      ensures quests == old(quests)
      ensures QuestById(quests, order, id).None? ==> !ok && requests == old(requests)
      ensures QuestById(quests, order, id).Some? ==>
        ok == reloaded && requests == old(requests) + [ReloadRequested(QuestById(quests, order, id).value)]
    {
      var q := GetQuestById(id, order);
      if q.None? {
        return false;
      }
      requests := requests + [ReloadRequested(q.value)];
      return reloaded;
    }
  }

  /** Adding a quest to a registry and then removing it under the same name drops that name
      from the registry: a quest the addition replaced is not restored, though it was still
      asked to unload. */
  method AddThenRemove(m: QuestManager, q: Quest) returns (removed: bool)
    requires m.Valid()
    modifies m
    ensures m.Valid()
    ensures removed
    ensures m.quests == old(m.quests) - {q.name}
    ensures q.name in old(m.quests) ==> m.quests != old(m.quests)
    ensures m.requests == old(m.requests) +
      (if q.name in old(m.quests) then [UnloadRequested(old(m.quests)[q.name])] else [])
  {
    var added := m.AddQuest(Some(q));
    removed := m.RemoveQuest(q);
    assert q.name in old(m.quests) ==> q.name !in m.quests;
  }
}
