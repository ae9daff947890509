# L2 game and login server core, modelled in Dafny

This project models a slice of the L2 game server and its login server. The slice covers:

- two skill effects, Lift Hold and Recovery;
- two skill conditions, target aggro and range from an NPC;
- the client requests that dispel a buff, sell items to a merchant, enchant a skill, and log
  into a game server;
- two server packets, the shared item reuse timer and the observation camera;
- the login session key;
- the helper buff table, the merchant price configurations, the pet data, the quest
  registry and the castle siege manager;
- the `MultiSort` statistics-and-sort utility;
- the weekly raid point reset;
- the town guard.

Each Java file is one Dafny module, in the form the code has:

- Objects whose fields the code updates are classes with `modifies` clauses, and their
  methods are proved against specification functions.
- Pure logic is functions and lemmas.
- Shared modules model Java semantics:
  - `JavaInt`: 32- and 64-bit wrap-around, and truncating `/` and `%`.
  - `Wire`: little-endian packet fields `readC`/`readH`/`readD`/`readQ` and their
    encodings, plus a writer of typed server-packet fields.
  - `Decimal`: Java's decimal rendering of an `int` and its parser.
  - `Actors`: the creature kinds and the mutable creature state the effects touch.

External services become inputs:

- the skill table, the enchant cost table, the castle manager, the clan table and the
  login controller;
- random rolls and the calendar;
- configuration flags;
- the iteration order of a Java `HashMap`, given as a sequence of keys.

Database, file, logging and network effects are recorded as events or left out.

Quirks of the code are modelled as written and stated as lemmas:

- `RequestExEnchantSkill`: after a route change (type 3), the code falls through into the
  success roll. A failing roll therefore reports success and then failure
  (`ChangeRouteRepliesTwice`).
- `MultiSort`: the keyed sort pairs each key with the value at the key's index in the
  already sorted list. It skips a leading value of 0. When the sort is not descending, it
  visits the largest value first (`PairsFollowSortedList`, `LeadingZeroDropped`,
  `KeyedSortOutput`).
- `RequestSellItem`: the running total is a Java `long`. With the limit at
  `Long.MAX_VALUE`, the guard cannot catch a total that wraps (`TotalWrapsAtLongMax`).
- `TaskRaidPointsReset`: a rank of 0 or below falls to the default branch and earns the
  up-to-50th reputation (`Reputation`).

## Model

| member | source | states |
|---|---|---|
| EffectLiftHold.VetoCases | game/src/main/java/l2server/gameserver/stats/effects/EffectLiftHold.java:40-42 | With Java's precedence, a raid is always vetoed. A non-attackable that is not a raid is never vetoed. An attackable that is not a raid is vetoed exactly when it is immobilised. |
| EffectLiftHold.LiftHoldEffect.AbnormalType | game/src/main/java/l2server/gameserver/stats/effects/EffectLiftHold.java:33-36 | The abnormal type is always AERIAL_YOKE. |
| EffectLiftHold.LiftHoldEffect.OnStart | game/src/main/java/l2server/gameserver/stats/effects/EffectLiftHold.java:38-48 | Returns false, leaving the creature unchanged, exactly on a veto. Otherwise the creature is paralysed, gains the S_LIFT_HOLD marker and emits a paralyse event, and nothing else changes. |
| EffectLiftHold.LiftHoldEffect.OnExit | game/src/main/java/l2server/gameserver/stats/effects/EffectLiftHold.java:50-55 | Clears paralysis and the marker, emits the stop event without removing effects, and leaves immobilisation and effects alone. |
| EffectLiftHold.LiftHoldEffect.OnActionTime | game/src/main/java/l2server/gameserver/stats/effects/EffectLiftHold.java:57-61 | Always returns true. |
| EffectRecovery.AbnormalTypeOf | java/l2server/gameserver/stats/effects/EffectRecovery.java:35-39 | The abnormal type is always BUFF. |
| EffectRecovery.OnStart | java/l2server/gameserver/stats/effects/EffectRecovery.java:45-53 | Starts exactly on players, so never on an NPC, and changes no state. |
| EffectRecovery.OnActionTime | java/l2server/gameserver/stats/effects/EffectRecovery.java:68-72 | Always returns false, so the effect ends at its first action time. |
| ConditionTargetAggro.Test | game/src/main/java/l2server/gameserver/stats/conditions/ConditionTargetAggro.java:44-54 | For a monster: aggressiveness equals the configured flag. For a player: reputation below 0. Any other target, or none: false. |
| ConditionTargetAggro.ConfigurationsCompared | game/src/main/java/l2server/gameserver/stats/conditions/ConditionTargetAggro.java:47-53 | On a monster the two configurations give opposite answers. On anything else they agree, and with no target both fail. |
| ConditionPlayerRangeFromNpc.FindNpc | game/src/main/java/l2server/gameserver/stats/conditions/ConditionPlayerRangeFromNpc.java:40-48 | The early-return loop finds a match exactly when some listed character is an NPC with the npc id. |
| ConditionPlayerRangeFromNpc.Test | game/src/main/java/l2server/gameserver/stats/conditions/ConditionPlayerRangeFromNpc.java:34-49 | False when the npc id or the radius is 0. Otherwise true exactly when an NPC with that id is among the known characters in the radius. |
| ConditionPlayerRangeFromNpc.NonNpcsNeverMatch | game/src/main/java/l2server/gameserver/stats/conditions/ConditionPlayerRangeFromNpc.java:41-45 | A known list without NPCs never matches. |
| ConditionPlayerRangeFromNpc.OrderIrrelevant | game/src/main/java/l2server/gameserver/stats/conditions/ConditionPlayerRangeFromNpc.java:40-48 | Two enumerations of the same characters give the same answer. |
| RequestDispel.GuardsBlock | game/src/main/java/l2server/gameserver/network/clientpackets/RequestDispel.java:50-74 | Each guard blocks on its own: a non-positive id or level, an unknown skill, a skill that cannot be dispelled, stays after death or is a debuff, a transformation that is not cancellable, or a dance without DANCE_CANCEL_BUFF. |
| RequestDispel.TransformAndDanceRules | game/src/main/java/l2server/gameserver/network/clientpackets/RequestDispel.java:66-74 | A transformation passes exactly when it targets SELF or PARTY or has skill type BUFF. A dance passes exactly when DANCE_CANCEL_BUFF is set. |
| RequestDispel.Strip | game/src/main/java/l2server/gameserver/network/clientpackets/RequestDispel.java:76-83 | Stopping a skill's effects removes every effect of that skill and keeps every other effect. |
| RequestDispel.StripAbsent | game/src/main/java/l2server/gameserver/network/clientpackets/RequestDispel.java:80-83 | Stopping a skill that has no effects changes nothing, so stopping twice is stopping once. |
| RequestDispel.StripKeepsOrder | game/src/main/java/l2server/gameserver/network/clientpackets/RequestDispel.java:76-83 | Stopping works effect by effect: the effects kept stay in their order, and an effect of another skill is kept. |
| RequestDispel.StopSkillEffects | game/src/main/java/l2server/gameserver/network/clientpackets/RequestDispel.java:76 | The creature's effects become those with the skill stripped. |
| RequestDispel.StopEach | game/src/main/java/l2server/gameserver/network/clientpackets/RequestDispel.java:82-84 | Every summon is stripped of the skill, whether or not it is listed twice. |
| RequestDispel.RunImpl | game/src/main/java/l2server/gameserver/network/clientpackets/RequestDispel.java:49-86 | If the request passes the guards and the player exists, the skill is stripped from the player alone when the packet names the player. Otherwise it is stripped from the named pet and from every summon. Every other creature is unchanged. |
| MultiSort.Insert | game/src/main/java/l2server/gameserver/util/MultiSort.java:190 | Inserting into a sorted list keeps it sorted and adds exactly that value. |
| MultiSort.SortAsc | game/src/main/java/l2server/gameserver/util/MultiSort.java:190 | `Collections.sort` yields a non-decreasing permutation of the values. |
| MultiSort.Reverse | game/src/main/java/l2server/gameserver/util/MultiSort.java:226-229 | `Collections.reverse` puts the element at i at the mirrored index. |
| MultiSort.ReverseProperties | game/src/main/java/l2server/gameserver/util/MultiSort.java:226-229 | Reversing keeps the values and turns a non-decreasing list into a non-increasing one. |
| MultiSort.SumBounds | game/src/main/java/l2server/gameserver/util/MultiSort.java:150-162 | The sum of n values lies between n times their lower bound and n times their upper bound. |
| MultiSort.Occurrences | game/src/main/java/l2server/gameserver/util/MultiSort.java:106-108 | `Collections.frequency` counts the occurrences of the value. |
| MultiSort.Max | game/src/main/java/l2server/gameserver/util/MultiSort.java:110-112 | `Collections.max` returns a member that bounds every value from above. |
| MultiSort.Min | game/src/main/java/l2server/gameserver/util/MultiSort.java:114-116 | `Collections.min` returns a member that bounds every value from below. |
| MultiSort.PicksOrdered | game/src/main/java/l2server/gameserver/util/MultiSort.java:201-249 | When the visit order is monotone, the keyed loops output key indices whose values follow that order, and no index twice. |
| MultiSort.PicksBelow | game/src/main/java/l2server/gameserver/util/MultiSort.java:201-249 | When the visit order is monotone, no value output so far lies past the value being visited. |
| MultiSort.LeadingZeroDropped | game/src/main/java/l2server/gameserver/util/MultiSort.java:192-211 | Because `lastValue` starts at 0, a 0 at the front of the visit order is never visited, so the keys paired with 0 are dropped. |
| MultiSort.PairsFollowSortedList | game/src/main/java/l2server/gameserver/util/MultiSort.java:215-221 | Keys [10, 20] with values [2, 1], sorted descending, come out as [10, 20] with [1, 2]. Keys are matched against the sorted list, not their own values. |
| MultiSort.VisitOrderMonotone | game/src/main/java/l2server/gameserver/util/MultiSort.java:201-233 | The keyed loops visit the sorted values largest first when not descending and smallest first when descending. |
| MultiSort.KeyedSortOutput | game/src/main/java/l2server/gameserver/util/MultiSort.java:192-255 | A keyed sort outputs its values descending when not descending and ascending when descending, and outputs no key twice. |
| MultiSort.KeyedLargestFirst | game/src/main/java/l2server/gameserver/util/MultiSort.java:201-223 | The keyed branch when not descending fails exactly when the index runs past the values. Otherwise it outputs the keys and values at the indices the visit order picks. |
| MultiSort.KeyedSmallestFirst | game/src/main/java/l2server/gameserver/util/MultiSort.java:232-249 | The same, for the descending branch. |
| MultiSort.CollectKeys | game/src/main/java/l2server/gameserver/util/MultiSort.java:215-222 | The inner loop outputs the keys at exactly the indices where the sorted list holds the current value. It fails once the index passes the value count. |
| MultiSort.MeanBetween | game/src/main/java/l2server/gameserver/util/MultiSort.java:118-124 | When the total does not overflow, the mean lies between the smallest and the largest value. |
| MultiSort.MultiSort.FromValues | game/src/main/java/l2server/gameserver/util/MultiSort.java:40-46 | Holds the values, no keys, unsorted, ascending. |
| MultiSort.MultiSort.FromKeysAndValues | game/src/main/java/l2server/gameserver/util/MultiSort.java:48-51 | Holds the keys and the values, unsorted, ascending. |
| MultiSort.MultiSort.FromMap | game/src/main/java/l2server/gameserver/util/MultiSort.java:53-56 | Keys and values follow the map's iteration order, pairwise. |
| MultiSort.MultiSort.Values | game/src/main/java/l2server/gameserver/util/MultiSort.java:164-170 | The values, or the empty list when none are held. |
| MultiSort.MultiSort.Keys | game/src/main/java/l2server/gameserver/util/MultiSort.java:98-104 | The keys, or the empty list when none are held. |
| MultiSort.MultiSort.Count | game/src/main/java/l2server/gameserver/util/MultiSort.java:80-82 | The number of values; 0 exactly when no values are held or the list is empty. |
| MultiSort.MultiSort.Frequency | game/src/main/java/l2server/gameserver/util/MultiSort.java:106-108 | The number of occurrences of the value, at most the count. |
| MultiSort.MultiSort.MaxValue | game/src/main/java/l2server/gameserver/util/MultiSort.java:110-112 | Fails exactly on an empty list. Otherwise it returns a held value that no value exceeds. |
| MultiSort.MultiSort.MinValue | game/src/main/java/l2server/gameserver/util/MultiSort.java:114-116 | Fails exactly on an empty list. Otherwise it returns a held value below no other. |
| MultiSort.MultiSort.GetTotalValue | game/src/main/java/l2server/gameserver/util/MultiSort.java:150-162 | The sum of the values in Java `int` arithmetic, and 0 for no values. |
| MultiSort.MultiSort.GetMean | game/src/main/java/l2server/gameserver/util/MultiSort.java:118-124 | -1 for no values. Otherwise the total divided by the count, truncated. |
| MultiSort.MultiSort.SetSortDescending | game/src/main/java/l2server/gameserver/util/MultiSort.java:180-182 | Sets the flag and nothing else. |
| MultiSort.MultiSort.Sort | game/src/main/java/l2server/gameserver/util/MultiSort.java:184-259 | Without keys: the values become the sorted permutation, reversed when descending; returns true; `isSorted` is unchanged. With keys: returns false, values sorted and keys unchanged, exactly when the loop would index past the values. Otherwise both lists are replaced by the keyed output and `isSorted` is set. |
| PetData.AutoLevel | game/src/main/java/l2server/gameserver/model/L2PetData.java:91-100 | The formula's level is at least 1. |
| PetData.AutoLevelMonotone | game/src/main/java/l2server/gameserver/model/L2PetData.java:91-100 | A higher pet level never gives a lower skill level. Pet levels 69 and 70 give 6 and 7. |
| PetData.Cap | game/src/main/java/l2server/gameserver/model/L2PetData.java:101-103 | The capped level is at most the skill's maximum and at most the level, and equals one of them. |
| PetData.FirstAuto | game/src/main/java/l2server/gameserver/model/L2PetData.java:85-105 | The index of the first level-0 entry for the skill, or none when there is no such entry. |
| PetData.FixedMax | game/src/main/java/l2server/gameserver/model/L2PetData.java:106-110 | The maximum level among the qualifying fixed-level entries, or 0. |
| PetData.NoEntryNoLevel | game/src/main/java/l2server/gameserver/model/L2PetData.java:84-113 | A skill without entries is at level 0. |
| PetData.PetData.constructor | game/src/main/java/l2server/gameserver/model/L2PetData.java:31-37 | Load 20000, hungry limit 1, minimum level 127, no food, no stats, no skills. |
| PetData.PetData.AddNewStat | game/src/main/java/l2server/gameserver/model/L2PetData.java:39-44 | The minimum level becomes the smaller of old and new. The data is filed under the level, replacing an earlier entry. All else is unchanged. |
| PetData.PetData.GetPetLevelData | game/src/main/java/l2server/gameserver/model/L2PetData.java:46-48 | The data filed under the level, or none. |
| PetData.PetData.SetLoad | game/src/main/java/l2server/gameserver/model/L2PetData.java:66-68 | Changes the load only. |
| PetData.PetData.SetHungryLimit | game/src/main/java/l2server/gameserver/model/L2PetData.java:70-72 | Changes the hungry limit only. |
| PetData.PetData.SetFood | game/src/main/java/l2server/gameserver/model/L2PetData.java:74-76 | Changes the food list only. |
| PetData.PetData.AddNewSkill | game/src/main/java/l2server/gameserver/model/L2PetData.java:80-82 | Appends the entry and changes nothing else. |
| PetData.PetData.GetAvailableLevel | game/src/main/java/l2server/gameserver/model/L2PetData.java:84-113 | At the first level-0 entry: the capped formula, whatever came before. Otherwise: the best qualifying fixed level. |
| HelperBuffTable.BuffNameSpellings | game/src/main/java/l2server/gameserver/datatables/HelperBuffTable.java:83 | "buff" matches in any letter case; "buffs" and "bufg" do not. |
| HelperBuffTable.Buffs | game/src/main/java/l2server/gameserver/datatables/HelperBuffTable.java:122-123 | No more entries than nodes. |
| HelperBuffTable.BuffsCount | game/src/main/java/l2server/gameserver/datatables/HelperBuffTable.java:83-123 | Exactly one entry per buff node. |
| HelperBuffTable.LowestIsMinimum | game/src/main/java/l2server/gameserver/datatables/HelperBuffTable.java:96-121 | A group's lowest bound is the minimum of its start value and the lower levels of the group's buffs. |
| HelperBuffTable.HighestIsMaximum | game/src/main/java/l2server/gameserver/datatables/HelperBuffTable.java:96-121 | A group's highest bound is the maximum of its start value and the upper levels of the group's buffs. |
| HelperBuffTable.UntouchedGroupKeepsDefaults | game/src/main/java/l2server/gameserver/datatables/HelperBuffTable.java:50-62 | Without a buff of the group, its bounds keep their start values. |
| HelperBuffTable.NonBuffNodeAddsNothing | game/src/main/java/l2server/gameserver/datatables/HelperBuffTable.java:83 | A node not named "buff" adds no entry, wherever it stands. |
| HelperBuffTable.NonBuffNodeKeepsLowest | game/src/main/java/l2server/gameserver/datatables/HelperBuffTable.java:83 | Such a node moves no lowest bound. |
| HelperBuffTable.NonBuffNodeKeepsHighest | game/src/main/java/l2server/gameserver/datatables/HelperBuffTable.java:83 | Such a node moves no highest bound. |
| HelperBuffTable.HelperBuffTable.constructor | game/src/main/java/l2server/gameserver/datatables/HelperBuffTable.java:44-62 | An empty list; lowest bounds 100 and highest bounds 1. |
| HelperBuffTable.HelperBuffTable.LoadNode | game/src/main/java/l2server/gameserver/datatables/HelperBuffTable.java:83-124 | A buff node appends its entry. A non-magic buff moves the physic bounds and a magic buff the magic bounds. A summon buff also moves the servitor bounds. |
| HelperBuffTable.HelperBuffTable.RestoreHelperBuffData | game/src/main/java/l2server/gameserver/datatables/HelperBuffTable.java:78-127 | The list gains the buff entries in document order, and every bound is folded over the document. |
| MerchantPriceConfig.Parse | game/src/main/java/l2server/gameserver/datatables/MerchantPriceConfigTable.java:93-123 | Null for a node not named "priceConfig". Failure exactly when id, name or baseTax is missing, with the message of the first missing one; with id and name present and baseTax missing, the message is the baseTax one. Otherwise the attributes, with castleId and zoneId defaulting to -1. |
| MerchantPriceConfig.KeyedLastWins | game/src/main/java/l2server/gameserver/datatables/MerchantPriceConfigTable.java:78-83 | An id is in the table exactly when some parsed config has it. It holds the last such config, so a later duplicate replaces an earlier one. |
| MerchantPriceConfig.ParseChildrenStops | game/src/main/java/l2server/gameserver/datatables/MerchantPriceConfigTable.java:78-83 | Once a child throws, no later child is parsed. |
| MerchantPriceConfig.KeyedStep | game/src/main/java/l2server/gameserver/datatables/MerchantPriceConfigTable.java:81 | Putting one more config files it under its id. |
| MerchantPriceConfig.MerchantPriceConfig.constructor | game/src/main/java/l2server/gameserver/datatables/MerchantPriceConfigTable.java:159-165 | The fields as given, and no castle. |
| MerchantPriceConfig.MerchantPriceConfig.Fields | game/src/main/java/l2server/gameserver/datatables/MerchantPriceConfigTable.java:170-207 | The getters return the stored fields. |
| MerchantPriceConfig.MerchantPriceConfig.GetTotalTax | game/src/main/java/l2server/gameserver/datatables/MerchantPriceConfigTable.java:209-219 | The base tax without a castle. With a castle, the castle's tax percent plus the base tax, in Java `int` arithmetic. |
| MerchantPriceConfig.MerchantPriceConfig.UpdateReferences | game/src/main/java/l2server/gameserver/datatables/MerchantPriceConfigTable.java:225-227 | There is a castle exactly when the castle table holds `castleId`, and then it is that castle. |
| MerchantPriceConfig.MerchantPriceConfigTable.constructor | game/src/main/java/l2server/gameserver/datatables/MerchantPriceConfigTable.java:50-51 | An empty table and no default. |
| MerchantPriceConfig.MerchantPriceConfigTable.GetById | game/src/main/java/l2server/gameserver/datatables/MerchantPriceConfigTable.java:62-64 | The config filed under the id, or none. |
| MerchantPriceConfig.MerchantPriceConfigTable.GetForCreature | game/src/main/java/l2server/gameserver/datatables/MerchantPriceConfigTable.java:53-60 | The first config, in iteration order, whose zone is in the creature's region. Otherwise the default, and always the default for a creature without a region. |
| MerchantPriceConfig.MerchantPriceConfigTable.Put | game/src/main/java/l2server/gameserver/datatables/MerchantPriceConfigTable.java:81 | A fresh config with those fields is filed under its id, and other ids are unchanged. |
| MerchantPriceConfig.MerchantPriceConfigTable.LoadChildren | game/src/main/java/l2server/gameserver/datatables/MerchantPriceConfigTable.java:78-83 | Every config parsed before the first failure is filed by id, and that failure is returned. |
| MerchantPriceConfig.MerchantPriceConfigTable.LoadXML | game/src/main/java/l2server/gameserver/datatables/MerchantPriceConfigTable.java:66-91 | No file: nothing changes. No default attribute: throws before loading. Otherwise the children are loaded, and the load throws on a child's failure or an unloaded default id. On success it sets the default. |
| MerchantPriceConfig.MerchantPriceConfigTable.UpdateReferences | game/src/main/java/l2server/gameserver/datatables/MerchantPriceConfigTable.java:138-142 | Every config's castle agrees with the castle table afterwards. |
| QuestManager.QuestById | game/src/main/java/l2server/gameserver/instancemanager/QuestManager.java:116-123 | The first quest, in iteration order, with the id; none exactly when no listed quest has it. |
| QuestManager.QuestByIdComplete | game/src/main/java/l2server/gameserver/instancemanager/QuestManager.java:116-123 | Over a complete iteration order, the search finds nothing exactly when no stored quest has the id. |
| QuestManager.AddThenRemove | game/src/main/java/l2server/gameserver/instancemanager/QuestManager.java:125-149 | On a registry, `addQuest(q)` then `removeQuest(q)` reports a removal and leaves the old quests minus q's name, so a quest the addition replaced is gone, not restored. That replaced quest was still asked to unload. |
| QuestManager.QuestManager.constructor | game/src/main/java/l2server/gameserver/instancemanager/QuestManager.java:42-47 | An empty registry. |
| QuestManager.QuestManager.GetQuest | game/src/main/java/l2server/gameserver/instancemanager/QuestManager.java:112-114 | The quest filed under the name, or none; a found quest carries that name. |
| QuestManager.QuestManager.GetQuestById | game/src/main/java/l2server/gameserver/instancemanager/QuestManager.java:116-123 | The loop returns what the search by id specifies. |
| QuestManager.QuestManager.AddQuest | game/src/main/java/l2server/gameserver/instancemanager/QuestManager.java:125-145 | Null throws IllegalArgumentException and changes nothing. Otherwise the quest is filed under its name, and an old quest under that name is asked to unload first. |
| QuestManager.QuestManager.RemoveQuest | game/src/main/java/l2server/gameserver/instancemanager/QuestManager.java:147-149 | True exactly when the name was present; the name is absent afterwards. |
| QuestManager.QuestManager.Unload | game/src/main/java/l2server/gameserver/instancemanager/QuestManager.java:163-166 | Asks the quest to save its global data, then removes it. |
| QuestManager.QuestManager.ReloadByName | game/src/main/java/l2server/gameserver/instancemanager/QuestManager.java:51-57 | False for an unknown name. Otherwise the quest's own reload result, after asking it to reload. |
| QuestManager.QuestManager.ReloadById | game/src/main/java/l2server/gameserver/instancemanager/QuestManager.java:66-72 | False when the search by id finds nothing. Otherwise the reload result of the quest it finds. |
| CastleSiegeManager.Refusal | game/src/main/java/l2server/gameserver/instancemanager/CastleSiegeManager.java:86-98 | Each refusal text holds exactly under its condition: no castle or castle id ≤ 0; siege not in progress; a clan that is not a registered attacker. No text exactly when the player may summon, clanless players included. |
| CastleSiegeManager.CheckIfOkToSummon | game/src/main/java/l2server/gameserver/instancemanager/CastleSiegeManager.java:81-104 | A non-player never summons. A player summons exactly when not refused. A message is sent only on refusal and only when not checking. |
| CastleSiegeManager.ClanRule | game/src/main/java/l2server/gameserver/instancemanager/CastleSiegeManager.java:94 | During a siege on a castle with a positive id, a clanless player passes. A clan member passes exactly when the clan is a registered attacker. |
| CastleSiegeManager.CastleSiegeManager.constructor | game/src/main/java/l2server/gameserver/instancemanager/CastleSiegeManager.java:54-61 | The settings before `load`: 500, 0, 500, 1, 5, 120, 0. |
| CastleSiegeManager.GetSiege | game/src/main/java/l2server/gameserver/instancemanager/CastleSiegeManager.java:207-214 | The siege of the first castle whose zone holds the point, or none exactly when no castle's zone does. |
| CastleSiegeManager.GetSieges | game/src/main/java/l2server/gameserver/instancemanager/CastleSiegeManager.java:228-234 | One siege per castle, in castle order. |
| RequestSellItem.ReadEntry | game/src/main/java/l2server/gameserver/network/clientpackets/RequestSellItem.java:77-79 | One entry is D, D, Q: 16 bytes. |
| RequestSellItem.ReadEntryEncode | game/src/main/java/l2server/gameserver/network/clientpackets/RequestSellItem.java:77-79 | Reading an encoded entry gives it back, with the rest of the buffer. |
| RequestSellItem.ReadEntries | game/src/main/java/l2server/gameserver/network/clientpackets/RequestSellItem.java:75-85 | An entry failing the screen discards the whole list. |
| RequestSellItem.ReadEntriesEncode | game/src/main/java/l2server/gameserver/network/clientpackets/RequestSellItem.java:75-85 | Encoded entries read back in packet order when all pass the screen; otherwise there is no list. |
| RequestSellItem.Parse | game/src/main/java/l2server/gameserver/network/clientpackets/RequestSellItem.java:67-86 | A list, when kept, has between 1 and the maximum entries. It fills the body exactly, and its object ids and counts are at least 1. |
| RequestSellItem.ParseBody | game/src/main/java/l2server/gameserver/network/clientpackets/RequestSellItem.java:67-86 | A well-formed body reads back its list id and its entries in order, or no list if an entry fails the screen. |
| RequestSellItem.CountRefused | game/src/main/java/l2server/gameserver/network/clientpackets/RequestSellItem.java:71-73 | A count ≤ 0, above the maximum, or whose wrapped product with 16 differs from the remaining length leaves no list. |
| RequestSellItem.Take | game/src/main/java/l2server/gameserver/network/clientpackets/RequestSellItem.java:191-195 | The sold count leaves the item's stack, the stack goes when emptied, and other items are unchanged. |
| RequestSellItem.SellStep | game/src/main/java/l2server/gameserver/network/clientpackets/RequestSellItem.java:175-196 | A missing or unsellable item changes nothing. Unless punished, the refund list grows by the item exactly when refunds are on. |
| RequestSellItem.SellStepExact | game/src/main/java/l2server/gameserver/network/clientpackets/RequestSellItem.java:181-189 | With the limit at most half of `Long.MAX_VALUE`, an unpunished step keeps the total equal to the exact worth sold and within the limit. |
| RequestSellItem.SellAllExact | game/src/main/java/l2server/gameserver/network/clientpackets/RequestSellItem.java:173-196 | Over the whole loop, an unpunished sale's total is the exact worth of the items sold, within the limit. |
| RequestSellItem.TotalWrapsAtLongMax | game/src/main/java/l2server/gameserver/network/clientpackets/RequestSellItem.java:181-183 | With the limit at `Long.MAX_VALUE`, two sales of 2^62 end unpunished with a negative total. |
| RequestSellItem.Gate | game/src/main/java/l2server/gameserver/network/clientpackets/RequestSellItem.java:100-171 | The guards in order: flooding, a null list, negative reputation without karma shopping, then the target and buy-list checks. A refused target ends with ActionFailed and a false list id with the punishment. Selling goes ahead exactly when all pass. |
| RequestSellItem.RequestSellItem.ReadImpl | game/src/main/java/l2server/gameserver/network/clientpackets/RequestSellItem.java:67-86 | The packet fields and the item array are those `Parse` gives. |
| RequestSellItem.RequestSellItem.ReadItems | game/src/main/java/l2server/gameserver/network/clientpackets/RequestSellItem.java:75-85 | The loop reads the entries as `ReadEntries` specifies. |
| RequestSellItem.RequestSellItem.Sell | game/src/main/java/l2server/gameserver/network/clientpackets/RequestSellItem.java:173-196 | The inventory, refund list, total and punishment are those of the selling loop's specification. |
| RequestSellItem.RequestSellItem.ProcessSell | game/src/main/java/l2server/gameserver/network/clientpackets/RequestSellItem.java:93-200 | A failing guard sends its event and sells nothing. A punished sale credits no adena. Otherwise adena is credited once, only when the total is not 0. |
| RequestExEnchantSkill.ReadRequestEncode | game/src/main/java/l2server/gameserver/network/clientpackets/RequestExEnchantSkill.java:51-56 | Reading an encoded D, D, H, H body gives the request back. |
| RequestExEnchantSkill.EnchantCodeRoundTrip | game/src/main/java/l2server/gameserver/network/clientpackets/RequestExEnchantSkill.java:89-90 | Route and level decode `route*1000 + level`. Every packet code splits into a non-negative route and a level below 1000. |
| RequestExEnchantSkill.Multiplier | game/src/main/java/l2server/gameserver/network/clientpackets/RequestExEnchantSkill.java:115-132 | Type 1 uses the safe multiplier, type 4 the immortal one, and the others the normal one. |
| RequestExEnchantSkill.Book | game/src/main/java/l2server/gameserver/network/clientpackets/RequestExEnchantSkill.java:116-132 | Types 0..4 use the normal, safe, untrain, change and immortal book. |
| RequestExEnchantSkill.NeedsBookCases | game/src/main/java/l2server/gameserver/network/clientpackets/RequestExEnchantSkill.java:140-143 | Without ES_SP_BOOK_NEEDED, a book is needed only for type 1. With it, type 0 needs one exactly at levels ending in 1, and every other type always. |
| RequestExEnchantSkill.UntrainRefund | game/src/main/java/l2server/gameserver/network/clientpackets/RequestExEnchantSkill.java:201 | The refund is four fifths of the cost, truncated. |
| RequestExEnchantSkill.InsaneRequestIsIgnored | game/src/main/java/l2server/gameserver/network/clientpackets/RequestExEnchantSkill.java:63-66 | A skill id or level ≤ 0, or a type outside 0..4, does nothing. |
| RequestExEnchantSkill.LowLevelRefused | game/src/main/java/l2server/gameserver/network/clientpackets/RequestExEnchantSkill.java:73-82 | Below class or character level 76, only the refusal is sent, whatever the tables hold. |
| RequestExEnchantSkill.SpentIsTheWrappedCost | game/src/main/java/l2server/gameserver/network/clientpackets/RequestExEnchantSkill.java:134-164 | SP spent is 0 or the positive wrapped cost times the multiplier, and never for an untrain. Adena spent is 0 or its wrapped cost. |
| RequestExEnchantSkill.NotEnoughSpRefused | game/src/main/java/l2server/gameserver/network/clientpackets/RequestExEnchantSkill.java:134-266 | Outside an untrain, SP below the wrapped cost times the multiplier is refused with the not-enough-SP message. |
| RequestExEnchantSkill.PassingRequestPays | game/src/main/java/l2server/gameserver/network/clientpackets/RequestExEnchantSkill.java:134-169 | Once the SP, book and adena checks pass, exactly the positive SP cost is spent (never on an untrain), the book is used exactly when one is needed, and the adena cost is spent exactly when it is taken; otherwise only the missing-items message is sent. |
| RequestExEnchantSkill.RollReplies | game/src/main/java/l2server/gameserver/network/clientpackets/RequestExEnchantSkill.java:171-246 | Every branch of the roll sends at least three replies and ends with the refreshed skill information. |
| RequestExEnchantSkill.UntrainGivesBackFourFifths | game/src/main/java/l2server/gameserver/network/clientpackets/RequestExEnchantSkill.java:155-219 | A completed untrain spends no SP and returns four fifths of its cost. No other type returns SP. |
| RequestExEnchantSkill.NothingTakenWhenShort | game/src/main/java/l2server/gameserver/network/clientpackets/RequestExEnchantSkill.java:144-153 | A missing book or too little adena takes nothing and changes no skill. |
| RequestExEnchantSkill.ImmortalAlwaysSucceeds | game/src/main/java/l2server/gameserver/network/clientpackets/RequestExEnchantSkill.java:220-233 | A paid-for type 4 sets the requested skill and reports success, never failure. |
| RequestExEnchantSkill.ChangeRouteRepliesTwice | game/src/main/java/l2server/gameserver/network/clientpackets/RequestExEnchantSkill.java:171-246 | A route change whose roll fails reports success, then failure: the change block falls through into the roll. |
| RequestExEnchantSkill.LearntAppend | game/src/main/java/l2server/gameserver/network/clientpackets/RequestExEnchantSkill.java:171-246 | Setting the skills of two branches in turn equals setting them together. |
| RequestExEnchantSkill.Player.constructor | game/src/main/java/l2server/gameserver/network/clientpackets/RequestExEnchantSkill.java:68-87 | The player state the request reads, and no replies. |
| RequestExEnchantSkill.Player.View | game/src/main/java/l2server/gameserver/network/clientpackets/RequestExEnchantSkill.java:105-150 | The snapshot carries the player's SP, adena, items and skills. |
| RequestExEnchantSkill.Player.Send | game/src/main/java/l2server/gameserver/network/clientpackets/RequestExEnchantSkill.java:73-87 | Appends a reply and changes nothing else. |
| RequestExEnchantSkill.Player.AddSkill | game/src/main/java/l2server/gameserver/network/clientpackets/RequestExEnchantSkill.java:171-246 | Sets the skill and changes nothing else. |
| RequestExEnchantSkill.RunImpl | game/src/main/java/l2server/gameserver/network/clientpackets/RequestExEnchantSkill.java:62-267 | The player's SP, adena, book count, skills and replies change exactly as the whole-request specification `Enchant` says. |
| RequestExEnchantSkill.Pay | game/src/main/java/l2server/gameserver/network/clientpackets/RequestExEnchantSkill.java:134-266 | From the costs on, the player changes exactly as `Attempt` says. |
| RequestExEnchantSkill.ApplyRoll | game/src/main/java/l2server/gameserver/network/clientpackets/RequestExEnchantSkill.java:171-246 | Skills and replies follow `Roll`; SP, adena and items are unchanged. |
| RequestExEnchantSkill.ApplyChange | game/src/main/java/l2server/gameserver/network/clientpackets/RequestExEnchantSkill.java:171-199 | The route-change block follows `Change`, and the skill it leaves is `Change`'s. |
| RequestExEnchantSkill.ApplyFinish | game/src/main/java/l2server/gameserver/network/clientpackets/RequestExEnchantSkill.java:200-246 | The untrain, success and failure branches follow `Finish`. |
| SessionKeys.Make | java/l2server/loginserver/SessionKey.java:34-40 | The constructor takes the LoginOk pair first and the PlayOk pair second. |
| SessionKeys.EqualsWithLicence | java/l2server/loginserver/SessionKey.java:59-66 | With the licence shown, equal keys are identical. Equality is PlayOk equality plus the login-pair check. |
| SessionKeys.EqualsWithoutLicence | java/l2server/loginserver/SessionKey.java:59-70 | Without the licence, keys are equal exactly when their PlayOk pairs are, whatever their LoginOk pairs. Equality with the licence implies equality without it. |
| SessionKeys.EqualsIsEquivalence | java/l2server/loginserver/SessionKey.java:59-71 | Under either setting, `equals` is reflexive, symmetric and transitive. |
| SessionKeys.ParseToString | java/l2server/loginserver/SessionKey.java:42-46 | The text of a key reads back as the key. |
| SessionKeys.ToStringInjective | java/l2server/loginserver/SessionKey.java:42-46 | Distinct keys have distinct texts. |
| RequestServerLogin.EncodeBody | login/src/main/java/l2server/loginserver/network/clientpackets/RequestServerLogin.java:59-62 | The body is 9 bytes. |
| RequestServerLogin.Remap | login/src/main/java/l2server/loginserver/network/clientpackets/RequestServerLogin.java:76-88 | Server 32 becomes server 31 with dimension 1; any other id stays, with dimension 0. |
| RequestServerLogin.RemapInjective | login/src/main/java/l2server/loginserver/network/clientpackets/RequestServerLogin.java:76-88 | No two ids give the same server and dimension, though 31 and 32 share a server. |
| RequestServerLogin.Outcome | login/src/main/java/l2server/loginserver/network/clientpackets/RequestServerLogin.java:69-123 | Access failed exactly when the licence is shown and the pair mismatches. Overloaded exactly when access passes and login is impossible on the remapped server. The client joins exactly when both pass. |
| RequestServerLogin.DimensionRecorded | login/src/main/java/l2server/loginserver/network/clientpackets/RequestServerLogin.java:94-116 | An admitted client gets dimension 1 recorded for server 32 and 0 otherwise, except on the Tenkai database. |
| RequestServerLogin.ReadBodyEncode | login/src/main/java/l2server/loginserver/network/clientpackets/RequestServerLogin.java:59-62 | The reads undo the body's encoding. |
| RequestServerLogin.LoginClient.constructor | login/src/main/java/l2server/loginserver/network/clientpackets/RequestServerLogin.java:71 | A client holding the session key, not yet joined. |
| RequestServerLogin.RequestServerLogin.constructor | login/src/main/java/l2server/loginserver/network/clientpackets/RequestServerLogin.java:57-67 | The fields start at 0. |
| RequestServerLogin.RequestServerLogin.ReadImpl | login/src/main/java/l2server/loginserver/network/clientpackets/RequestServerLogin.java:57-67 | Succeeds exactly with at least 9 bytes, reading back any encoded body. Otherwise nothing is read. |
| RequestServerLogin.RequestServerLogin.Run | login/src/main/java/l2server/loginserver/network/clientpackets/RequestServerLogin.java:69-123 | The client receives exactly `Outcome`'s events and joins exactly when `Outcome` admits it. The server id is remapped once access passes. |
| ExUseSharedGroupItem.Seconds | java/l2server/gameserver/network/serverpackets/ExUseSharedGroupItem.java:31-32 | Milliseconds become whole seconds, truncated toward zero. |
| ExUseSharedGroupItem.SecondsTruncates | java/l2server/gameserver/network/serverpackets/ExUseSharedGroupItem.java:31-32 | -1999 ms is -1 s, not -2. |
| ExUseSharedGroupItem.Body | java/l2server/gameserver/network/serverpackets/ExUseSharedGroupItem.java:37-44 | The fields follow the format "dddd". |
| ExUseSharedGroupItem.BodyReadBack | java/l2server/gameserver/network/serverpackets/ExUseSharedGroupItem.java:27-44 | The ids read back unchanged and the times in whole seconds. |
| ExUseSharedGroupItem.ExUseSharedGroupItem.constructor | java/l2server/gameserver/network/serverpackets/ExUseSharedGroupItem.java:27-33 | Stores the ids and the times in seconds. |
| ExUseSharedGroupItem.ExUseSharedGroupItem.WriteImpl | java/l2server/gameserver/network/serverpackets/ExUseSharedGroupItem.java:37-44 | Writes the four stored fields in order. |
| ExUseSharedGroupItem.Write | java/l2server/gameserver/network/serverpackets/ExUseSharedGroupItem.java:27-44 | Building and writing the packet yields `Body`. |
| ObservationMode.Body | java/l2server/gameserver/network/serverpackets/ObservationMode.java:37-46 | The fields follow the format "dddccc". |
| ObservationMode.BodyDeterminesPoint | java/l2server/gameserver/network/serverpackets/ObservationMode.java:37-46 | Different points give different packets, and the three trailing bytes are always 0x00, 0xc0, 0x00. |
| ObservationMode.ObservationMode.constructor | java/l2server/gameserver/network/serverpackets/ObservationMode.java:30-35 | Stores the point. |
| ObservationMode.ObservationMode.WriteImpl | java/l2server/gameserver/network/serverpackets/ObservationMode.java:37-46 | Writes `Body` of the stored point. |
| ObservationMode.Write | java/l2server/gameserver/network/serverpackets/ObservationMode.java:30-46 | Building and writing the packet yields `Body`. |
| TaskRaidPointsReset.Reputation | java/l2server/gameserver/taskmanager/tasks/TaskRaidPointsReset.java:56-99 | Ranks 1..10 get their own setting. Any other rank up to 50, including ranks below 1, gets the up-to-50th setting; above 50, the up-to-100th. |
| TaskRaidPointsReset.Awards | java/l2server/gameserver/taskmanager/tasks/TaskRaidPointsReset.java:52-101 | Every credit is the reputation of some ranked member at rank 100 or better, and there is at most one credit per rank entry. |
| TaskRaidPointsReset.AwardsOncePerEarner | java/l2server/gameserver/taskmanager/tasks/TaskRaidPointsReset.java:52-101 | When the rank order lists every ranked player exactly once, a clan receives exactly one credit per member ranked at most 100: for every value, as many credits of that value as members whose own rank is worth it. So every such member's reputation is credited. |
| TaskRaidPointsReset.AwardsPerListedEarner | java/l2server/gameserver/taskmanager/tasks/TaskRaidPointsReset.java:52-101 | For any duplicate-free rank order, a clan receives one credit per listed member ranked at most 100. |
| TaskRaidPointsReset.AwardsPerListedValue | java/l2server/gameserver/taskmanager/tasks/TaskRaidPointsReset.java:52-101 | For any duplicate-free rank order and any value, a clan receives that value once per listed member ranked at most 100 whose rank is worth it. |
| TaskRaidPointsReset.NoEarnerNoAward | java/l2server/gameserver/taskmanager/tasks/TaskRaidPointsReset.java:54 | A clan with no member ranked at most 100 receives nothing. |
| TaskRaidPointsReset.Clan.constructor | java/l2server/gameserver/taskmanager/tasks/TaskRaidPointsReset.java:50 | A clan with its members and no credits. |
| TaskRaidPointsReset.Clan.AddReputationScore | java/l2server/gameserver/taskmanager/tasks/TaskRaidPointsReset.java:100 | Records the credit. |
| TaskRaidPointsReset.RaidBossPoints.constructor | java/l2server/gameserver/taskmanager/tasks/TaskRaidPointsReset.java:49 | The rank list. |
| TaskRaidPointsReset.RaidBossPoints.CleanUp | java/l2server/gameserver/taskmanager/tasks/TaskRaidPointsReset.java:105 | Empties the rank list. |
| TaskRaidPointsReset.RewardClan | java/l2server/gameserver/taskmanager/tasks/TaskRaidPointsReset.java:52-102 | The inner loop credits the clan with `Awards`. |
| TaskRaidPointsReset.OnTimeElapsed | java/l2server/gameserver/taskmanager/tasks/TaskRaidPointsReset.java:41-108 | On a Monday outside Tenkai Legacy, every clan gains its `Awards` from the old ranks, one credit per member ranked at most 100 and worth that member's own rank, and the ranks are cleared. On any other day, nothing changes. |
| GuardInstance.ParseHtmlPathRoundTrip | java/l2server/gameserver/model/actor/instance/L2GuardInstance.java:149-162 | A page path reads back as its npc id and page. |
| GuardInstance.HtmlPathInjective | java/l2server/gameserver/model/actor/instance/L2GuardInstance.java:149-162 | Different npc ids or pages give different paths. |
| GuardInstance.OnlyMonstersAttackable | java/l2server/gameserver/model/actor/instance/L2GuardInstance.java:98-102 | A guard attacks exactly monsters, and never players, guards or other attackables. |
| GuardInstance.HomeDecision | java/l2server/gameserver/model/actor/instance/L2GuardInstance.java:107-121 | Teleport exactly when farther than 1000 in 3D. Walk back exactly when within that but farther than 150 on the ground. Stay exactly when within both. |
| GuardInstance.FarAboveTeleports | java/l2server/gameserver/model/actor/instance/L2GuardInstance.java:110-114 | A guard right above or below its spawn, more than 1000 away, is teleported. |
| GuardInstance.Guard.constructor | java/l2server/gameserver/model/actor/instance/L2GuardInstance.java:74-81 | A guard at its spawn point, idle, with no aggro. |
| GuardInstance.Guard.ReturnHome | java/l2server/gameserver/model/actor/instance/L2GuardInstance.java:107-121 | Teleport: the guard moves to its spawn point and keeps its aggro. Walk back: the aggro is cleared and the guard moves towards the spawn point. Stay: nothing changes. |
| GuardInstance.Guard.ReturnTaskRun | java/l2server/gameserver/model/actor/instance/L2GuardInstance.java:47-62 | A decayed guard that does not respawn, and a busy guard, are left alone. An idle guard returns home. |

## Specification functions

These functions define what the code computes and carry no contract of their own. The rows
named after each one state its properties.

- `SessionKeys.CheckLoginPair` (`checkLoginPair`, SessionKey.java lines 48-57): `EqualsWithLicence`.
- `SessionKeys.Equals` (`equals`, SessionKey.java lines 59-71): `EqualsWithLicence`, `EqualsWithoutLicence`, `EqualsIsEquivalence`.
- `SessionKeys.ToString` (`toString`, SessionKey.java lines 42-46): `ParseToString`, `ToStringInjective`.
- `GuardInstance.HtmlPath` (`getHtmlPath`, L2GuardInstance.java lines 149-162): `ParseHtmlPathRoundTrip`, `HtmlPathInjective`.
- `GuardInstance.IsAutoAttackable` (`isAutoAttackable`, L2GuardInstance.java lines 98-102): `OnlyMonstersAttackable`.
- `MerchantPriceConfig.MerchantPriceConfig.HasCastle` (`hasCastle`, MerchantPriceConfigTable.java lines 209-211): `MerchantPriceConfig.GetTotalTax`, `MerchantPriceConfig.UpdateReferences`.
- `EffectLiftHold.Vetoes` (the guard of `onStart`, EffectLiftHold.java lines 40-42): `VetoCases`, `LiftHoldEffect.OnStart`.
- `RequestDispel.MayDispel` (the guards of `runImpl`, RequestDispel.java lines 50-74): `GuardsBlock`, `TransformAndDanceRules`, `RunImpl`.
- `RequestExEnchantSkill.Attempt` (`runImpl` from the costs on, RequestExEnchantSkill.java lines 134-266): `SpentIsTheWrappedCost`, `NotEnoughSpRefused`, `PassingRequestPays`, `UntrainGivesBackFourFifths`, `NothingTakenWhenShort`, `Pay`.
- `RequestExEnchantSkill.Enchant` (all of `runImpl`, RequestExEnchantSkill.java lines 62-267): `InsaneRequestIsIgnored`, `LowLevelRefused`, `RunImpl`.
- `RequestExEnchantSkill.Roll` (the route-change and roll block, RequestExEnchantSkill.java lines 171-246): `RollReplies`, `ImmortalAlwaysSucceeds`, `ChangeRouteRepliesTwice`, `ApplyRoll`.
- `RequestSellItem.SellAll` (the selling loop, RequestSellItem.java lines 173-196): `SellAllExact`, `RequestSellItem.Sell`.
- `PetData.AvailableLevel` (`getAvailableLevel`, L2PetData.java lines 84-113): `NoEntryNoLevel`, `PetData.GetAvailableLevel`.
- `HelperBuffTable.Lowest` and `HelperBuffTable.Highest` (the level bounds, HelperBuffTable.java lines 96-121): `LowestIsMinimum`, `HighestIsMaximum`, `UntouchedGroupKeepsDefaults`, `NonBuffNodeKeepsLowest`, `NonBuffNodeKeepsHighest`.
- `TaskRaidPointsReset.RankedWorth` (the members whose rank is worth a given reputation, TaskRaidPointsReset.java lines 52-101): `AwardsOncePerEarner`, `OnTimeElapsed`.
- `MultiSort.Sum` (the total of `getTotalValue`, MultiSort.java lines 150-162): `SumBounds`, `MeanBetween`, `MultiSort.GetTotalValue`.

## Left out

- Logging, the database, file reading, XML parsing, packet sending and network closing are left out. Where the code's behaviour depends on them, they become inputs or recorded events.
- Floating-point values are not modelled: tax rates, `getBaseTaxRate`, `getTotalTaxRate` and `getCastleTaxRate`.
- `MultiSort.getStandardDeviation` and `getHarmonicMean` are not modelled: they use floating point and division by the total.
- String comparison ignoring case folds ASCII letters only.
- `EffectRecovery.onExit` has an empty body, so the model has no member for it.
- `CastleSiegeManager.load`, `addSiegeSkills`, `removeSiegeSkills` and `checkIsRegistered` are not modelled. They read the configuration file, the skill table and the database.
- `QuestManager.reload()`, `save` and `report` are not modelled. They run scripts from files, or only log. Requests to quests (unload, save, reload) are recorded, not performed.
- `RequestSellItem.ProcessSell` collapses the target, distance, instance and merchant checks and the buy-list lookup into one given outcome. The tax rate, the status update and the sell-list packet are left out. `MAX_ADENA` and `MAX_ITEM_IN_PACKET` are parameters.
- `RequestSellItem.Sell` abstracts `checkItemManipulation` as the player holding at least the count. Credited adena is recorded as an event.
- `RequestExEnchantSkill.Pay` treats taking SP and destroying the book as always succeeding. Only the adena destruction is an input (`adenaTaken`).
- `RequestExEnchantSkill.RunImpl` treats the rolls and the success rate as inputs. `logSkillEnchant` is left out. The UserInfo, skill list, enchant info and shortcut updates collapse into one `InfoRefreshed` reply. `addSkill(null)` changes nothing. A player without the skill ends the request, as the null dereference does. The enchant detail table is taken as total: it gives a detail for every route and level a request can name, since the code reads the detail without a null check.
- `RequestExEnchantSkill.UntrainRefund` computes `(int)(requiredSp * 0.8)` exactly as the truncated four fifths. The caps of `addSp` are not modelled.
- `RequestServerLogin.Run` records the database UPDATE of the last dimension as an event. `isLoginPossible` is a function of the server id, and logging is left out.
- `TaskRaidPointsReset.Clan.AddReputationScore` records the score. Its own rules, such as caps and the broadcast, are not modelled.
- `TaskRaidPointsReset.OnTimeElapsed` takes the day of the week and the server type as inputs. Task scheduling and `initialize` are left out.
- `GuardInstance.Guard.ReturnHome` models `teleToLocation` as a change of position only.
- `GuardInstance.InsideRadius`: `isInsideRadius` is not part of this model. It is taken as the non-strict check its `strictCheck = false` argument asks for.
- Guard spawning, `onSpawn`, `onAction` and the fixed-rate scheduling of the return task are left out.
- `ExUseSharedGroupItem.ExUseSharedGroupItem.WriteImpl` writes typed fields. The byte encoding of `writeD`/`writeC` and the packet header are not modelled.
- `ObservationMode.ObservationMode.WriteImpl`: the byte encoding is not modelled, for the same reason.
- `MerchantPriceConfig`: the castle is a snapshot value of its id and tax percent.
- `readD`, `readH`, `readQ` and `readC` belong to the packet base classes (`ReceivablePacket`, `L2GameClientPacket`), which are outside the modelled files. They are modelled as little-endian two's complement fields of the L2 protocol, with `readC` and `readH` unsigned.
- `PetData.PetData` stores the per-level data as an opaque value, and `SkillTable.getMaxLevel` is a parameter.
