/** `TaskRaidPointsReset`: every Monday, outside the Tenkai Legacy server, each clan is
    credited reputation for every member ranked among the top 100 raid hunters, and the raid
    points are then cleared. The day, the server type and the ranking settings are inputs;
    the rank list is walked in `order`, the iteration order of its entries. */
module TaskRaidPointsReset {

  /** `Config.RAID_RANKING_1ST` … `_10TH` as `top`, then `_UP_TO_50TH` and `_UP_TO_100TH`. */
  datatype RankingConfig = RankingConfig(top: seq<int>, upTo50: int, upTo100: int)

  predicate ValidConfig(cfg: RankingConfig)
  {
    |cfg.top| == 10
  }

  /** The reputation of a rank; the switch sends every rank outside 1..10, including those
      below 1, to the 50/100 split. */
  function Reputation(rank: int, cfg: RankingConfig): (r: int)
    requires ValidConfig(cfg)
    ensures 1 <= rank <= 10 ==> r == cfg.top[rank - 1]
    ensures (rank < 1 || 10 < rank) && rank <= 50 ==> r == cfg.upTo50
    ensures 50 < rank ==> r == cfg.upTo100
  {
    if 1 <= rank <= 10 then cfg.top[rank - 1]
    else if rank <= 50 then cfg.upTo50
    else cfg.upTo100
  }

  /** Whether a ranked player earns the clan reputation: a member of the clan, ranked at
      most 100. */
  predicate Earns(members: set<int>, ranks: map<int, int>, player: int)
  {
    player in ranks && ranks[player] <= 100 && player in members
  }

  /** The credits a clan with these members receives, walking the rank list in `order`. */
  function Awards(members: set<int>, ranks: map<int, int>, order: seq<int>, cfg: RankingConfig): (r: seq<int>)
    requires ValidConfig(cfg)
    requires forall k :: 0 <= k < |order| ==> order[k] in ranks
    ensures |r| <= |order|
    ensures forall a :: a in r ==>
      exists k :: 0 <= k < |order| && Earns(members, ranks, order[k]) && a == Reputation(ranks[order[k]], cfg)
  {
    if order == [] then []
    else
      var prefix := order[..|order| - 1];
      var last := order[|order| - 1];
      var r := Awards(members, ranks, prefix, cfg);
      assert forall a :: a in r ==>
        exists k :: 0 <= k < |order| && Earns(members, ranks, order[k]) && a == Reputation(ranks[order[k]], cfg) by {
        forall a | a in r
          ensures exists k :: 0 <= k < |order| && Earns(members, ranks, order[k]) && a == Reputation(ranks[order[k]], cfg)
        {
          var k :| 0 <= k < |prefix| && Earns(members, ranks, prefix[k]) && a == Reputation(ranks[prefix[k]], cfg);
          assert order[k] == prefix[k];
        }
      }
      if Earns(members, ranks, last) then r + [Reputation(ranks[last], cfg)] else r
  }

  /** The players of `order` who earn the clan reputation. */
  function Earners(members: set<int>, ranks: map<int, int>, order: seq<int>): set<int>
  {
    set k | 0 <= k < |order| && Earns(members, ranks, order[k]) :: order[k]
  }

  /** The clan members ranked at most 100: those who earn the clan reputation. */
  function RankedMembers(members: set<int>, ranks: map<int, int>): set<int>
  {
    set p | p in ranks && ranks[p] <= 100 && p in members
  }

  /** The clan members ranked at most 100 whose rank is worth `v`. */
  function RankedWorth(members: set<int>, ranks: map<int, int>, cfg: RankingConfig, v: int): set<int>
    requires ValidConfig(cfg)
  {
    set p | p in ranks && ranks[p] <= 100 && p in members && Reputation(ranks[p], cfg) == v
  }

  /** The players of `order` who earn the clan reputation worth `v`. */
  function ListedWorth(members: set<int>, ranks: map<int, int>, order: seq<int>, cfg: RankingConfig, v: int): set<int>
    requires ValidConfig(cfg)
  {
    set k | 0 <= k < |order| && Earns(members, ranks, order[k]) && Reputation(ranks[order[k]], cfg) == v :: order[k]
  }

  /** A clan is credited once per ranked member: when `order` lists every ranked player
      exactly once, as iterating the rank map does, the clan receives exactly as many credits
      as it has members ranked at most 100. */
  lemma AwardsOncePerEarner(members: set<int>, ranks: map<int, int>, order: seq<int>, cfg: RankingConfig)
    requires ValidConfig(cfg)
    requires forall k :: 0 <= k < |order| ==> order[k] in ranks
    requires forall p :: p in ranks ==> p in order
    requires forall i, j :: 0 <= i < j < |order| ==> order[i] != order[j]
    ensures |Awards(members, ranks, order, cfg)| == |RankedMembers(members, ranks)|
    ensures forall v :: multiset(Awards(members, ranks, order, cfg))[v] == |RankedWorth(members, ranks, cfg, v)|
    ensures forall p :: p in members && p in ranks && ranks[p] <= 100 ==>
      Reputation(ranks[p], cfg) in Awards(members, ranks, order, cfg)
  {
    var a := Awards(members, ranks, order, cfg);
    forall v
      ensures multiset(a)[v] == |RankedWorth(members, ranks, cfg, v)|
    {
      AwardsPerListedValue(members, ranks, order, cfg, v);
      assert ListedWorth(members, ranks, order, cfg, v) == RankedWorth(members, ranks, cfg, v) by {
        forall p | p in RankedWorth(members, ranks, cfg, v)
          ensures p in ListedWorth(members, ranks, order, cfg, v)
        {
          var k :| 0 <= k < |order| && order[k] == p;
          assert Earns(members, ranks, order[k]);
        }
      }
    }
    forall p | p in members && p in ranks && ranks[p] <= 100
      ensures Reputation(ranks[p], cfg) in a
    {
      var v := Reputation(ranks[p], cfg);
      assert p in RankedWorth(members, ranks, cfg, v);
      assert multiset(a)[v] > 0;
    }
    AwardsPerListedEarner(members, ranks, order, cfg);
    assert Earners(members, ranks, order) == RankedMembers(members, ranks) by {
      forall p | p in RankedMembers(members, ranks)
        ensures p in Earners(members, ranks, order)
      {
        var k :| 0 <= k < |order| && order[k] == p;
        assert Earns(members, ranks, order[k]);
      }
    }
  }

  /** Over a walk that lists no player twice, the clan receives one credit per listed earner. */
  lemma {:induction false} AwardsPerListedEarner(members: set<int>, ranks: map<int, int>, order: seq<int>, cfg: RankingConfig)
    requires ValidConfig(cfg)
    requires forall k :: 0 <= k < |order| ==> order[k] in ranks
    requires forall i, j :: 0 <= i < j < |order| ==> order[i] != order[j]
    ensures |Awards(members, ranks, order, cfg)| == |Earners(members, ranks, order)|
  {
    if order != [] {
      var prefix := order[..|order| - 1];
      var last := order[|order| - 1];
      AwardsPerListedEarner(members, ranks, prefix, cfg);
      var e := Earners(members, ranks, prefix);
      assert last !in e by {
        forall k | 0 <= k < |prefix|
          ensures prefix[k] != last
        {
          assert prefix[k] == order[k];
        }
      }
      if Earns(members, ranks, last) {
        assert Earners(members, ranks, order) == e + {last} by {
          forall p | p in Earners(members, ranks, order) ensures p in e + {last} {
            var k :| 0 <= k < |order| && Earns(members, ranks, order[k]) && order[k] == p;
            if k < |prefix| {
              assert prefix[k] == p;
            }
          }
          forall p | p in e ensures p in Earners(members, ranks, order) {
            var k :| 0 <= k < |prefix| && Earns(members, ranks, prefix[k]) && prefix[k] == p;
            assert order[k] == p;
          }
        }
      } else {
        assert Earners(members, ranks, order) == e by {
          forall p | p in Earners(members, ranks, order) ensures p in e {
            var k :| 0 <= k < |order| && Earns(members, ranks, order[k]) && order[k] == p;
            assert k < |prefix|;
            assert prefix[k] == p;
          }
          forall p | p in e ensures p in Earners(members, ranks, order) {
            var k :| 0 <= k < |prefix| && Earns(members, ranks, prefix[k]) && prefix[k] == p;
            assert order[k] == p;
          }
        }
      }
    }
  }

  /** Over a walk that lists no player twice, the clan receives `v` once per listed earner
      whose rank is worth `v`. */
  lemma {:induction false} AwardsPerListedValue(members: set<int>, ranks: map<int, int>, order: seq<int>,
                                                cfg: RankingConfig, v: int)
    requires ValidConfig(cfg)
    requires forall k :: 0 <= k < |order| ==> order[k] in ranks
    requires forall i, j :: 0 <= i < j < |order| ==> order[i] != order[j]
    ensures multiset(Awards(members, ranks, order, cfg))[v] == |ListedWorth(members, ranks, order, cfg, v)|
  {
    if order != [] {
      var prefix := order[..|order| - 1];
      AwardsPerListedValue(members, ranks, prefix, cfg, v);
      ListedWorthStep(members, ranks, order, cfg, v);
    }
  }

  /** Extending the walk by one player who was not listed before adds that player to the
      listed earners worth `v` exactly when the player earns `v`. */
  lemma ListedWorthStep(members: set<int>, ranks: map<int, int>, order: seq<int>, cfg: RankingConfig, v: int)
    requires ValidConfig(cfg) && order != []
    requires forall k :: 0 <= k < |order| ==> order[k] in ranks
    requires forall i, j :: 0 <= i < j < |order| ==> order[i] != order[j]
    ensures var last := order[|order| - 1];
      var e := ListedWorth(members, ranks, order[..|order| - 1], cfg, v);
      && last !in e
      && ListedWorth(members, ranks, order, cfg, v) ==
         if Earns(members, ranks, last) && Reputation(ranks[last], cfg) == v then e + {last} else e
  {
    var prefix := order[..|order| - 1];
    var last := order[|order| - 1];
    var e := ListedWorth(members, ranks, prefix, cfg, v);
    var hit := Earns(members, ranks, last) && Reputation(ranks[last], cfg) == v;
    forall p | p in e ensures p != last && p in ListedWorth(members, ranks, order, cfg, v) {
      var k :| 0 <= k < |prefix| && Earns(members, ranks, prefix[k]) && Reputation(ranks[prefix[k]], cfg) == v && prefix[k] == p;
      assert order[k] == p;
    }
    forall p | p in ListedWorth(members, ranks, order, cfg, v) ensures p in e || (hit && p == last) {
      var k :| 0 <= k < |order| && Earns(members, ranks, order[k]) && Reputation(ranks[order[k]], cfg) == v && order[k] == p;
      if k < |prefix| {
        assert prefix[k] == p;
      }
    }
  }

  /** A clan none of whose members is ranked at most 100 receives nothing. */
  lemma {:induction false} NoEarnerNoAward(members: set<int>, ranks: map<int, int>, order: seq<int>, cfg: RankingConfig)
    requires ValidConfig(cfg)
    requires forall k :: 0 <= k < |order| ==> order[k] in ranks
    requires forall p :: p in members && p in ranks ==> ranks[p] > 100
    ensures Awards(members, ranks, order, cfg) == []
  {
    if order != [] {
      NoEarnerNoAward(members, ranks, order[..|order| - 1], cfg);
    }
  }

  class Clan {
    /** The object ids of the members, for `isMember`. */
    const members: set<int>
    /** The scores passed to `addReputationScore`, in order. */
    var credits: seq<int>

    constructor (members: set<int>)
      ensures this.members == members && credits == []
    {
      this.members := members;
      credits := [];
    }

    method AddReputationScore(value: int)
      modifies this
      ensures credits == old(credits) + [value]
    {
      credits := credits + [value];
    }
  }

  /** `RaidBossPointsManager`: the rank of each player who hunted raid bosses. */
  class RaidBossPoints {
    var ranks: map<int, int>

    constructor (ranks: map<int, int>)
      ensures this.ranks == ranks
    {
      this.ranks := ranks;
    }

    method CleanUp()
      modifies this
      ensures ranks == map[]
    {
      ranks := map[];
    }
  }

  /** The inner loop: credit one clan for each of its ranked members. */
  method RewardClan(c: Clan, ranks: map<int, int>, order: seq<int>, cfg: RankingConfig)
    requires ValidConfig(cfg)
    requires forall k :: 0 <= k < |order| ==> order[k] in ranks
    modifies c
    ensures c.credits == old(c.credits) + Awards(c.members, ranks, order, cfg)
  {
    for i := 0 to |order|
      invariant c.credits == old(c.credits) + Awards(c.members, ranks, order[..i], cfg)
    {
      var player := order[i];
      assert order[..i + 1][..i] == order[..i];
      if ranks[player] <= 100 && player in c.members {
        var reputation := Reputation(ranks[player], cfg);
        c.AddReputationScore(reputation);
      }
    }
    assert order[..|order|] == order;
  }

  /** `onTimeElapsed`: on a Monday outside Tenkai Legacy, every clan is credited and the
      raid points are cleared; on any other day nothing changes. */
  method OnTimeElapsed(clans: seq<Clan>, points: RaidBossPoints, order: seq<int>, cfg: RankingConfig,
                       isMonday: bool, tenkaiLegacy: bool)
    requires ValidConfig(cfg)
    requires forall k :: 0 <= k < |order| ==> order[k] in points.ranks
    requires forall p :: p in points.ranks ==> p in order
    requires forall i, j :: 0 <= i < j < |order| ==> order[i] != order[j]
    requires forall i, j :: 0 <= i < j < |clans| ==> clans[i] != clans[j]
    modifies points, set c | c in clans
    ensures !(isMonday && !tenkaiLegacy) ==>
      points.ranks == old(points.ranks) && forall i :: 0 <= i < |clans| ==> clans[i].credits == old(clans[i].credits)
    ensures isMonday && !tenkaiLegacy ==>
      && points.ranks == map[]
      && forall i :: 0 <= i < |clans| ==>
           clans[i].credits == old(clans[i].credits) + Awards(clans[i].members, old(points.ranks), order, cfg)
    ensures isMonday && !tenkaiLegacy ==> forall i :: 0 <= i < |clans| ==>
      |clans[i].credits| == |old(clans[i].credits)| + |RankedMembers(clans[i].members, old(points.ranks))|
    ensures isMonday && !tenkaiLegacy ==> forall i, v :: 0 <= i < |clans| ==>
      multiset(clans[i].credits)[v] ==
        multiset(old(clans[i].credits))[v] + |RankedWorth(clans[i].members, old(points.ranks), cfg, v)|
  {
    if tenkaiLegacy || !isMonday {
      return;
    }
    var rankList := points.ranks;
    for i := 0 to |clans|
      invariant points.ranks == rankList
      invariant forall j :: 0 <= j < i ==>
        clans[j].credits == old(clans[j].credits) + Awards(clans[j].members, rankList, order, cfg)
      invariant forall j :: i <= j < |clans| ==> clans[j].credits == old(clans[j].credits)
    {
      RewardClan(clans[i], rankList, order, cfg);
    }
    forall i | 0 <= i < |clans|
      ensures |Awards(clans[i].members, rankList, order, cfg)| == |RankedMembers(clans[i].members, rankList)|
      ensures forall v :: multiset(Awards(clans[i].members, rankList, order, cfg))[v] ==
                |RankedWorth(clans[i].members, rankList, cfg, v)|
    {
      AwardsOncePerEarner(clans[i].members, rankList, order, cfg);
    }
    points.CleanUp();
  }
}
