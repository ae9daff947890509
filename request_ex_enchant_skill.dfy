/** `RequestExEnchantSkill`: a player enchants a skill along a route, or untrains it, changes
    its route, or enchants it safely or with certainty. The request passes sanity checks and
    the player's eligibility, the enchant code decodes into route and level, the enchant type
    picks a cost multiplier and a book, and the costs are taken before the outcome is rolled.
    The skill table, the enchant cost table and the random rolls are inputs. */
module RequestExEnchantSkill {
  import opened JavaInt
  import opened Wire
  import opened Wrappers

  /** The packet body: type, skill id, skill level and enchant code, read D, D, H, H. */
  datatype Request = Request(enchantType: int, skillId: int, skillLvl: int, skillEnchant: int)

  function ReadRequest(bs: seq<byte>): (r: Request)
    requires |bs| >= 12
    ensures IsInt(r.enchantType) && IsInt(r.skillId)
    ensures 0 <= r.skillLvl < 0x1_0000 && 0 <= r.skillEnchant < 0x1_0000
  {
    var (enchantType, r1) := ReadD(bs);
    var (skillId, r2) := ReadD(r1);
    var (skillLvl, r3) := ReadH(r2);
    var (skillEnchant, _) := ReadH(r3);
    Request(enchantType, skillId, skillLvl, skillEnchant)
  }

  function EncodeRequest(r: Request): (bs: seq<byte>)
    requires IsInt(r.enchantType) && IsInt(r.skillId)
    requires 0 <= r.skillLvl < 0x1_0000 && 0 <= r.skillEnchant < 0x1_0000
    ensures |bs| == 12
  {
    EncodeD(r.enchantType) + EncodeD(r.skillId) + EncodeH(r.skillLvl) + EncodeH(r.skillEnchant)
  }

  lemma ReadRequestEncode(r: Request)
    requires IsInt(r.enchantType) && IsInt(r.skillId)
    requires 0 <= r.skillLvl < 0x1_0000 && 0 <= r.skillEnchant < 0x1_0000
    ensures ReadRequest(EncodeRequest(r)) == r
  {
    var hs := EncodeH(r.skillLvl) + (EncodeH(r.skillEnchant) + []);
    assert EncodeRequest(r) == EncodeD(r.enchantType) + (EncodeD(r.skillId) + hs);
    ReadDEncode(r.enchantType, EncodeD(r.skillId) + hs);
    ReadDEncode(r.skillId, hs);
    ReadHEncode(r.skillLvl, EncodeH(r.skillEnchant) + []);
    ReadHEncode(r.skillEnchant, []);
  }

  /** The enchant route: the thousands of the enchant code. */
  function Route(skillEnchant: int): int
  {
    Quot(skillEnchant, 1000)
  }

  /** The enchant level on the route: the code below the thousands. */
  function Level(skillEnchant: int): int
  {
    Rem(skillEnchant, 1000)
  }

  /** The code of route r at level l decodes back to r and l; every code the packet can carry
      (two unsigned bytes) decodes to a non-negative route and a level below 1000. */
  lemma EnchantCodeRoundTrip(route: int, level: int, code: int)
    requires route >= 0 && 0 <= level < 1000
    requires 0 <= code
    ensures Route(route * 1000 + level) == route && Level(route * 1000 + level) == level
    ensures Route(code) >= 0 && 0 <= Level(code) < 1000 && Route(code) * 1000 + Level(code) == code
  {
  }

  /** The book item ids of an enchant range, one per enchant type. */
  datatype Books = Books(normal: int, safe: int, untrain: int, change: int, immortal: int)

  /** `EnchantCostsTable.NORMAL_/SAFE_/IMMORTAL_ENCHANT_COST_MULTIPLIER`. */
  datatype Multipliers = Multipliers(normal: int, safe: int, immortal: int)

  /** One step of an enchant route: base costs, the player's success rate, the books and the
      level the route starts at. */
  datatype Detail = Detail(spCost: int, adenaCost: int, rate: int, books: Books, startLevel: int)

  /** `L2EnchantSkillLearn` of the skill: which levels are the route's last, and the detail
      of each route level. */
  datatype Learn = Learn(isMaxEnchant: (int, int) -> bool, detail: (int, int) -> Detail)

  /** The tables and settings the request consults: whether the skill table holds a skill at
      (id, level, route, enchant level), the enchant learn of the skill, the multipliers and
      `Config.ES_SP_BOOK_NEEDED`. */
  datatype Tables = Tables(skillExists: (int, int, int, int) -> bool, learn: Option<Learn>,
                           multipliers: Multipliers, spBookNeeded: bool)

  /** The cost multiplier of an enchant type: safe for 1, immortal for 4, normal otherwise. */
  function Multiplier(enchantType: int, m: Multipliers): (r: int)
    ensures enchantType == 1 ==> r == m.safe
    ensures enchantType == 4 ==> r == m.immortal
    ensures enchantType != 1 && enchantType != 4 ==> r == m.normal
  {
    match enchantType
    case 1 => m.safe
    case 4 => m.immortal
    case _ => m.normal
  }

  /** The book of an enchant type: 0 normal, 1 safe, 2 untrain, 3 change, 4 immortal. */
  function Book(enchantType: int, b: Books): (r: int)
    requires 0 <= enchantType <= 4
    ensures r == [b.normal, b.safe, b.untrain, b.change, b.immortal][enchantType]
  {
    match enchantType
    case 1 => b.safe
    case 2 => b.untrain
    case 3 => b.change
    case 4 => b.immortal
    case _ => b.normal
  }

  /** Whether a book is consumed: always for a safe enchant, and otherwise when books are
      required, for every type but a normal enchant past the first level of its tens. */
  predicate NeedsBook(enchantType: int, level: int, spBookNeeded: bool)
  {
    enchantType == 1 || (spBookNeeded && (enchantType != 0 || Rem(level, 10) == 1))
  }

  lemma NeedsBookCases(enchantType: int, level: int, spBookNeeded: bool)
    requires level >= 0
    ensures !spBookNeeded ==> (NeedsBook(enchantType, level, spBookNeeded) <==> enchantType == 1)
    ensures spBookNeeded && enchantType == 0 ==> (NeedsBook(enchantType, level, spBookNeeded) <==> level % 10 == 1)
    ensures spBookNeeded && enchantType != 0 ==> NeedsBook(enchantType, level, spBookNeeded)
  {
  }

  /** A skill as the player knows it. */
  datatype SkillState = SkillState(level: int, route: int, enchant: int)

  datatype Message =
    | CannotEnchantInThisClass | CannotEnchantOnThisLevel | CannotEnchantNow
    | MissingItems | NotEnoughSp
    | ChangeLevelRemains | ChangeLevelDecreased(penalty: int)
    | UntrainDecreasedByOne | UntrainReset
    | Succeeded | Failed | FailedLevelRemains

  /** What the player is sent: a system message, an `ExEnchantSkillResult`, or the refreshed
      skill information sent after every completed attempt. */
  datatype Reply = Msg(m: Message) | Result(success: bool) | InfoRefreshed

  /** What the player brings to the request. */
  datatype PlayerView = PlayerView(classLevel: int, level: int, allowedToEnchant: bool, sp: int, adena: int,
                                   items: map<int, int>, skills: map<int, SkillState>)

  /** What a request does to the player: SP taken, SP given back, the book consumed if any,
      adena taken, the skills set in turn (by `addSkill`), and the replies. */
  datatype Effects = Effects(spSpent: int, spGained: int, bookUsed: Option<int>, adenaSpent: int,
                             learnt: seq<SkillState>, replies: seq<Reply>)

  function Refused(m: Message): Effects
  {
    Effects(0, 0, None, 0, [], [Msg(m)])
  }

  const NoEffect := Effects(0, 0, None, 0, [], [])

  /** `(int) (requiredSp * 0.8)`: for a Java `int` the double product is within far less than
      a fifth of the exact four fifths, so the truncating cast yields the truncated quotient. */
  function UntrainRefund(requiredSp: int): (r: int)
    ensures 0 <= requiredSp ==> 0 <= r <= requiredSp && 5 * r <= 4 * requiredSp < 5 * r + 5
  {
    Quot(4 * requiredSp, 5)
  }

  /** What is consumed, and what the player is told, from the point the costs are known. The
      rolls are `Rnd.get(min(4, current enchant level))` as penalty and `Rnd.get(100)` as roll;
      `adenaTaken` is whether taking the adena succeeded. */
  function Attempt(req: Request, p: PlayerView, t: Tables, route: int, level: int, esd: Detail,
                   penalty: int, roll: int, adenaTaken: bool): Effects
    requires 0 <= req.enchantType <= 4
  {
    var requiredSp := Wrap32(esd.spCost * Multiplier(req.enchantType, t.multipliers));
    var requiredAdena := Wrap32(esd.adenaCost * Multiplier(req.enchantType, t.multipliers));
    var book := Book(req.enchantType, esd.books);
    var useBook := NeedsBook(req.enchantType, level, t.spBookNeeded);
    if !(p.sp >= requiredSp || req.enchantType == 2) then Refused(NotEnoughSp)
    else if useBook && !(book in p.items && p.items[book] >= 1) then Refused(MissingItems)
    else if p.adena < requiredAdena then Refused(MissingItems)
    else
      var spSpent := if req.enchantType != 2 && requiredSp > 0 then requiredSp else 0;
      var bookUsed := if useBook then Some(book) else None;
      if !adenaTaken then Effects(spSpent, 0, bookUsed, 0, [], [Msg(MissingItems)])
      else
        var spGained := if req.enchantType == 2 then UntrainRefund(requiredSp) else 0;
        var (learnt, replies) := Roll(req, t, route, level, esd, penalty, roll);
        Effects(spSpent, spGained, bookUsed, requiredAdena, learnt, replies)
  }

  /** The route-change block: the skill set, the replies, and the skill carried into the
      success roll (None when the changed skill is not in the skill table). */
  function Change(req: Request, t: Tables, route: int, level: int, penalty: int)
    : (seq<SkillState>, seq<Reply>, Option<SkillState>)
  {
    var changedLevel := level - penalty;
    var changedRoute := if changedLevel == 0 then 0 else route;
    if req.enchantType != 3 then ([], [], Some(SkillState(req.skillLvl, route, level)))
    else if t.skillExists(req.skillId, req.skillLvl, changedRoute, changedLevel) then
      ([SkillState(req.skillLvl, changedRoute, changedLevel)],
       [Result(true), Msg(if penalty == 0 then ChangeLevelRemains else ChangeLevelDecreased(penalty))],
       Some(SkillState(req.skillLvl, changedRoute, changedLevel)))
    else ([], [Msg(NotEnoughSp)], None)
  }

  /** The untrain, success and failure branches, given the skill carried into them. */
  function Finish(req: Request, t: Tables, route: int, esd: Detail, roll: int, skill: Option<SkillState>)
    : (seq<SkillState>, seq<Reply>)
  {
    var added := if skill.Some? then [skill.value] else [];
    if req.enchantType == 2 then
      (added, [Result(true), Msg(if route > 0 then UntrainDecreasedByOne else UntrainReset), InfoRefreshed])
    else if req.enchantType == 4 || roll <= esd.rate then
      (added, [Result(true), Msg(Succeeded), InfoRefreshed])
    else if req.enchantType == 0 then
      var resetRoute := if esd.startLevel > 0 then route else 0;
      var reset := if t.skillExists(req.skillId, req.skillLvl, resetRoute, esd.startLevel)
                   then [SkillState(req.skillLvl, resetRoute, esd.startLevel)] else [];
      (reset, [Msg(Failed), Result(false), InfoRefreshed])
    else
      ([], [Msg(FailedLevelRemains), Result(false), InfoRefreshed])
  }

  /** The outcome once everything is paid. A route change sets the changed skill and then
      falls through into the success roll, as the code is written. */
  function Roll(req: Request, t: Tables, route: int, level: int, esd: Detail, penalty: int, roll: int)
    : (seq<SkillState>, seq<Reply>)
  {
    var (learnt, replies, skill) := Change(req, t, route, level, penalty);
    var (learnt', replies') := Finish(req, t, route, esd, roll, skill);
    (learnt + learnt', replies + replies')
  }

  /** `runImpl`: what the request does to a player. A player without the skill makes the
      Java code fail on a null dereference, which ends the request. */
  function Enchant(req: Request, p: PlayerView, t: Tables, penalty: int, roll: int, adenaTaken: bool): Effects
  {
    if req.skillId <= 0 || req.skillLvl <= 0 || req.enchantType < 0 || req.enchantType > 4 then NoEffect
    else if p.classLevel < 76 then Refused(CannotEnchantInThisClass)
    else if p.level < 76 then Refused(CannotEnchantOnThisLevel)
    else if !p.allowedToEnchant then Refused(CannotEnchantNow)
    else
      var route := Route(req.skillEnchant);
      var level := Level(req.skillEnchant);
      if !t.skillExists(req.skillId, req.skillLvl, route, level) || t.learn.None? then NoEffect
      else if t.learn.value.isMaxEnchant(route, level - 1) then NoEffect
      else if req.skillId !in p.skills then NoEffect
      else
        var cur := p.skills[req.skillId];
        if req.enchantType == 3 && (cur.route < 1 || cur.enchant < 1 || cur.level != req.skillLvl || cur.enchant < level - 1)
        then NoEffect
        else Attempt(req, p, t, route, level, t.learn.value.detail(route, level), penalty, roll, adenaTaken)
  }

  /** The skills after the effects set theirs in turn. */
  function Learnt(skills: map<int, SkillState>, skillId: int, learnt: seq<SkillState>): map<int, SkillState>
  {
    if learnt == [] then skills else skills[skillId := learnt[|learnt| - 1]]
  }

  // ---- properties of the request ----

  /** A request failing the sanity check does nothing at all. */
  lemma InsaneRequestIsIgnored(req: Request, p: PlayerView, t: Tables, penalty: int, roll: int, adenaTaken: bool)
    requires req.skillId <= 0 || req.skillLvl <= 0 || req.enchantType < 0 || req.enchantType > 4
    ensures Enchant(req, p, t, penalty, roll, adenaTaken) == NoEffect
  {
  }

  /** A player below class or character level 76 is refused before any cost is looked at:
      whatever the tables say, only the refusal is sent. */
  lemma LowLevelRefused(req: Request, p: PlayerView, t: Tables, t': Tables, penalty: int, roll: int, adenaTaken: bool)
    requires req.skillId > 0 && req.skillLvl > 0 && 0 <= req.enchantType <= 4
    requires p.classLevel < 76 || p.level < 76
    ensures Enchant(req, p, t, penalty, roll, adenaTaken) == Enchant(req, p, t', penalty, roll, adenaTaken)
    ensures Enchant(req, p, t, penalty, roll, adenaTaken).replies ==
      [Msg(if p.classLevel < 76 then CannotEnchantInThisClass else CannotEnchantOnThisLevel)]
  {
  }

  /** Only the refusals spend nothing; whatever is spent, SP is the cost times the multiplier
      in Java `int` arithmetic, never for an untrain, and adena likewise. */
  lemma SpentIsTheWrappedCost(req: Request, p: PlayerView, t: Tables, route: int, level: int, esd: Detail,
                              penalty: int, roll: int, adenaTaken: bool)
    requires 0 <= req.enchantType <= 4
    ensures var e := Attempt(req, p, t, route, level, esd, penalty, roll, adenaTaken);
      && (e.spSpent == 0 || e.spSpent == Wrap32(esd.spCost * Multiplier(req.enchantType, t.multipliers)) > 0)
      && (req.enchantType == 2 ==> e.spSpent == 0)
      && (e.adenaSpent == 0 || e.adenaSpent == Wrap32(esd.adenaCost * Multiplier(req.enchantType, t.multipliers)))
  {
  }

  /** Too little SP for anything but an untrain is refused with NOT_ENOUGH_SP before anything
      else is looked at or taken. */
  lemma NotEnoughSpRefused(req: Request, p: PlayerView, t: Tables, route: int, level: int, esd: Detail,
                           penalty: int, roll: int, adenaTaken: bool)
    requires 0 <= req.enchantType <= 4
    requires req.enchantType != 2 && p.sp < Wrap32(esd.spCost * Multiplier(req.enchantType, t.multipliers))
    ensures Attempt(req, p, t, route, level, esd, penalty, roll, adenaTaken) == Refused(NotEnoughSp)
  {
  }

  /** A request that passes the SP, book and adena checks takes exactly its wrapped SP cost
      (unless it is an untrain or the cost is not positive), the book when one is needed, and,
      when taking it succeeds, exactly its wrapped adena cost. */
  lemma PassingRequestPays(req: Request, p: PlayerView, t: Tables, route: int, level: int, esd: Detail,
                           penalty: int, roll: int, adenaTaken: bool)
    requires 0 <= req.enchantType <= 4
    requires var requiredSp := Wrap32(esd.spCost * Multiplier(req.enchantType, t.multipliers));
      p.sp >= requiredSp || req.enchantType == 2
    requires var book := Book(req.enchantType, esd.books);
      NeedsBook(req.enchantType, level, t.spBookNeeded) ==> book in p.items && p.items[book] >= 1
    requires p.adena >= Wrap32(esd.adenaCost * Multiplier(req.enchantType, t.multipliers))
    ensures var e := Attempt(req, p, t, route, level, esd, penalty, roll, adenaTaken);
      var requiredSp := Wrap32(esd.spCost * Multiplier(req.enchantType, t.multipliers));
      && e.spSpent == (if req.enchantType != 2 && requiredSp > 0 then requiredSp else 0)
      && e.bookUsed == (if NeedsBook(req.enchantType, level, t.spBookNeeded) then Some(Book(req.enchantType, esd.books)) else None)
      && e.adenaSpent == (if adenaTaken then Wrap32(esd.adenaCost * Multiplier(req.enchantType, t.multipliers)) else 0)
      && (!adenaTaken <==> e.replies == [Msg(MissingItems)])
  {
    var e := Attempt(req, p, t, route, level, esd, penalty, roll, adenaTaken);
    if adenaTaken {
      var (learnt, replies) := Roll(req, t, route, level, esd, penalty, roll);
      assert e.replies == replies;
      RollReplies(req, t, route, level, esd, penalty, roll);
    }
  }

  /** Every completed attempt ends with the result, the message and the refreshed information. */
  lemma RollReplies(req: Request, t: Tables, route: int, level: int, esd: Detail, penalty: int, roll: int)
    ensures var (learnt, replies) := Roll(req, t, route, level, esd, penalty, roll);
      |replies| >= 3 && replies[|replies| - 1] == InfoRefreshed
  {
    var (l1, r1, skill) := Change(req, t, route, level, penalty);
    var (l2, r2) := Finish(req, t, route, esd, roll, skill);
    assert |r2| == 3 && r2[2] == InfoRefreshed;
    assert Roll(req, t, route, level, esd, penalty, roll).1 == r1 + r2;
  }

  /** A completed untrain takes no SP and gives back four fifths of its SP cost, rounded
      toward zero; no other type gives SP back. */
  lemma UntrainGivesBackFourFifths(req: Request, p: PlayerView, t: Tables, route: int, level: int, esd: Detail,
                                   penalty: int, roll: int)
    requires 0 <= req.enchantType <= 4
    ensures var e := Attempt(req, p, t, route, level, esd, penalty, roll, true);
      var requiredSp := Wrap32(esd.spCost * Multiplier(req.enchantType, t.multipliers));
      && (req.enchantType != 2 ==> e.spGained == 0)
      && (req.enchantType == 2 && e.learnt != [] ==> e.spSpent == 0 && e.spGained == UntrainRefund(requiredSp))
  {
  }

  /** A missing book or too little adena is reported before anything is taken. */
  lemma NothingTakenWhenShort(req: Request, p: PlayerView, t: Tables, route: int, level: int, esd: Detail,
                              penalty: int, roll: int, adenaTaken: bool)
    requires 0 <= req.enchantType <= 4
    requires var book := Book(req.enchantType, esd.books);
      || (NeedsBook(req.enchantType, level, t.spBookNeeded) && !(book in p.items && p.items[book] >= 1))
      || p.adena < Wrap32(esd.adenaCost * Multiplier(req.enchantType, t.multipliers))
    ensures var e := Attempt(req, p, t, route, level, esd, penalty, roll, adenaTaken);
      e.spSpent == 0 && e.spGained == 0 && e.bookUsed.None? && e.adenaSpent == 0 && e.learnt == []
  {
  }

  /** Once paid for, an immortal enchant always succeeds: the requested skill is set and
      no failure is reported. */
  lemma ImmortalAlwaysSucceeds(req: Request, t: Tables, route: int, level: int, esd: Detail, penalty: int, roll: int)
    requires req.enchantType == 4
    ensures var (learnt, replies) := Roll(req, t, route, level, esd, penalty, roll);
      && learnt == [SkillState(req.skillLvl, route, level)]
      && Result(false) !in replies && replies[0] == Result(true)
  {
    var (learnt, replies) := Roll(req, t, route, level, esd, penalty, roll);
    assert replies == [Result(true), Msg(Succeeded), InfoRefreshed];
  }

  /** A route change whose roll fails tells the player both that it succeeded and that it
      failed, in that order: the change block falls through into the success roll. */
  lemma ChangeRouteRepliesTwice(req: Request, t: Tables, route: int, level: int, esd: Detail, penalty: int, roll: int)
    requires req.enchantType == 3 && roll > esd.rate
    requires t.skillExists(req.skillId, req.skillLvl, if level - penalty == 0 then 0 else route, level - penalty)
    ensures var (learnt, replies) := Roll(req, t, route, level, esd, penalty, roll);
      |replies| == 5 && replies[0] == Result(true) && replies[3] == Result(false)
  {
  }

  /** The player, as the request reads and changes it. */
  class Player {
    const classLevel: int
    const level: int
    const allowedToEnchant: bool
    var sp: int
    var adena: int
    /** Item counts by item id, for the books. */
    var items: map<int, int>
    var skills: map<int, SkillState>
    var replies: seq<Reply>

    constructor (classLevel: int, level: int, allowedToEnchant: bool, sp: int, adena: int,
                 items: map<int, int>, skills: map<int, SkillState>)
      ensures View() == PlayerView(classLevel, level, allowedToEnchant, sp, adena, items, skills)
      ensures replies == []
    {
      this.classLevel := classLevel;
      this.level := level;
      this.allowedToEnchant := allowedToEnchant;
      this.sp := sp;
      this.adena := adena;
      this.items := items;
      this.skills := skills;
      replies := [];
    }

    function View(): (v: PlayerView)
      reads this
      ensures v.sp == sp && v.adena == adena && v.items == items && v.skills == skills
    {
      PlayerView(classLevel, level, allowedToEnchant, sp, adena, items, skills)
    }

    method Send(r: Reply)
      modifies this
      ensures replies == old(replies) + [r]
      ensures sp == old(sp) && adena == old(adena) && items == old(items) && skills == old(skills)
    {
      replies := replies + [r];
    }

    method AddSkill(skillId: int, s: SkillState)
      modifies this
      ensures skills == old(skills)[skillId := s]
      ensures sp == old(sp) && adena == old(adena) && items == old(items) && replies == old(replies)
    {
      skills := skills[skillId := s];
    }
  }

  /** `runImpl` on a player: the effects `Enchant` describes, applied. */
  method RunImpl(req: Request, player: Player?, t: Tables, penalty: int, roll: int, adenaTaken: bool)
    modifies player
    ensures player != null ==>
      var e := Enchant(req, old(player.View()), t, penalty, roll, adenaTaken);
      && player.sp == old(player.sp) - e.spSpent + e.spGained
      && player.adena == old(player.adena) - e.adenaSpent
      && player.items == (if e.bookUsed.Some? then old(player.items)[e.bookUsed.value := old(player.items)[e.bookUsed.value] - 1]
                          else old(player.items))
      && player.skills == Learnt(old(player.skills), req.skillId, e.learnt)
      && player.replies == old(player.replies) + e.replies
  {
    if req.skillId <= 0 || req.skillLvl <= 0 || req.enchantType < 0 || req.enchantType > 4 {
      return;
    }
    if player == null {
      return;
    }
    if player.classLevel < 76 {
      player.Send(Msg(CannotEnchantInThisClass));
      return;
    }
    if player.level < 76 {
      player.Send(Msg(CannotEnchantOnThisLevel));
      return;
    }
    if !player.allowedToEnchant {
      player.Send(Msg(CannotEnchantNow));
      return;
    }
    var enchantRoute := Route(req.skillEnchant);
    var enchantLevel := Level(req.skillEnchant);
    if !t.skillExists(req.skillId, req.skillLvl, enchantRoute, enchantLevel) || t.learn.None? {
      return;
    }
    var s := t.learn.value;
    if s.isMaxEnchant(enchantRoute, enchantLevel - 1) {
      return;
    }
    if req.skillId !in player.skills {
      return;
    }
    var currentSkill := player.skills[req.skillId];
    if req.enchantType == 3 && (currentSkill.route < 1 || currentSkill.enchant < 1 || currentSkill.level != req.skillLvl
                                || currentSkill.enchant < enchantLevel - 1) {
      return;
    }
    var esd := s.detail(enchantRoute, enchantLevel);
    Pay(req, player, t, enchantRoute, enchantLevel, esd, penalty, roll, adenaTaken);
  }

  /** The tail of `runImpl` from the cost computation on. */
  method Pay(req: Request, player: Player, t: Tables, enchantRoute: int, enchantLevel: int, esd: Detail,
             penalty: int, roll: int, adenaTaken: bool)
    requires 0 <= req.enchantType <= 4
    modifies player
    ensures var e := Attempt(req, old(player.View()), t, enchantRoute, enchantLevel, esd, penalty, roll, adenaTaken);
      && player.sp == old(player.sp) - e.spSpent + e.spGained
      && player.adena == old(player.adena) - e.adenaSpent
      && player.items == (if e.bookUsed.Some? then old(player.items)[e.bookUsed.value := old(player.items)[e.bookUsed.value] - 1]
                          else old(player.items))
      && player.skills == Learnt(old(player.skills), req.skillId, e.learnt)
      && player.replies == old(player.replies) + e.replies
  {
    var costMultiplier := Multiplier(req.enchantType, t.multipliers);
    var reqItemId := Book(req.enchantType, esd.books);
    var requiredSp := Wrap32(esd.spCost * costMultiplier);
    var requiredItems := Wrap32(esd.adenaCost * costMultiplier);
    if !(player.sp >= requiredSp || req.enchantType == 2) {
      player.Send(Msg(NotEnoughSp));
      return;
    }
    var hasBook := reqItemId in player.items && player.items[reqItemId] >= 1;
    var useBook := NeedsBook(req.enchantType, enchantLevel, t.spBookNeeded);
    if useBook && !hasBook {
      player.Send(Msg(MissingItems));
      return;
    }
    if player.adena < requiredItems {
      player.Send(Msg(MissingItems));
      return;
    }
    if req.enchantType != 2 && requiredSp > 0 {
      player.sp := player.sp - requiredSp;
    }
    if useBook {
      player.items := player.items[reqItemId := player.items[reqItemId] - 1];
    }
    var check := adenaTaken;
    if check {
      player.adena := player.adena - requiredItems;
    }
    if !check {
      player.Send(Msg(MissingItems));
      return;
    }
    if req.enchantType == 2 {
      player.sp := player.sp + UntrainRefund(requiredSp);
    }
    ApplyRoll(req, player, t, enchantRoute, enchantLevel, esd, penalty, roll);
  }

  /** Setting the skills of two runs in turn is setting those of both runs. */
  lemma LearntAppend(skills: map<int, SkillState>, skillId: int, a: seq<SkillState>, b: seq<SkillState>)
    ensures Learnt(Learnt(skills, skillId, a), skillId, b) == Learnt(skills, skillId, a + b)
  {
    if b != [] {
      assert (a + b)[|a + b| - 1] == b[|b| - 1];
    } else {
      assert a + b == a;
    }
  }

  /** The outcome branches of `runImpl`, with its reassignments of the enchant level, route
      and skill. */
  method ApplyRoll(req: Request, player: Player, t: Tables, enchantRoute: int, enchantLevel: int, esd: Detail,
                   penalty: int, roll: int)
    modifies player
    ensures var (learnt, replies) := Roll(req, t, enchantRoute, enchantLevel, esd, penalty, roll);
      && player.skills == Learnt(old(player.skills), req.skillId, learnt)
      && player.replies == old(player.replies) + replies
      && player.sp == old(player.sp) && player.adena == old(player.adena) && player.items == old(player.items)
  {
    ghost var skills0 := player.skills;
    ghost var replies0 := player.replies;
    var skill := ApplyChange(req, player, t, enchantRoute, enchantLevel, penalty);
    ghost var skills1 := player.skills;
    ghost var replies1 := player.replies;
    ApplyFinish(req, player, t, enchantRoute, esd, roll, skill);
    var (l1, r1, s1) := Change(req, t, enchantRoute, enchantLevel, penalty);
    var (l2, r2) := Finish(req, t, enchantRoute, esd, roll, s1);
    LearntAppend(skills0, req.skillId, l1, l2);
    assert replies0 + r1 + r2 == replies0 + (r1 + r2);
  }

  /** The route-change block of `runImpl`: the skill it leaves for the success roll. */
  method ApplyChange(req: Request, player: Player, t: Tables, enchantRoute: int, enchantLevel: int, penalty: int)
    returns (skill: Option<SkillState>)
    modifies player
    ensures var (learnt, replies, s) := Change(req, t, enchantRoute, enchantLevel, penalty);
      && skill == s
      && player.skills == Learnt(old(player.skills), req.skillId, learnt)
      && player.replies == old(player.replies) + replies
      && player.sp == old(player.sp) && player.adena == old(player.adena) && player.items == old(player.items)
  {
    var route := enchantRoute;
    var level := enchantLevel;
    skill := Some(SkillState(req.skillLvl, route, level));
    if req.enchantType == 3 {
      var levelPenalty := penalty;
      level := level - levelPenalty;
      if level == 0 {
        route := 0;
      }
      skill := if t.skillExists(req.skillId, req.skillLvl, route, level) then Some(SkillState(req.skillLvl, route, level))
               else None;
      if skill.Some? {
        player.AddSkill(req.skillId, skill.value);
        player.Send(Result(true));
        if levelPenalty == 0 {
          player.Send(Msg(ChangeLevelRemains));
        } else {
          player.Send(Msg(ChangeLevelDecreased(levelPenalty)));
        }
      } else {
        player.Send(Msg(NotEnoughSp));
      }
    }
  }

  /** The untrain, success and failure branches of `runImpl`. */
  method ApplyFinish(req: Request, player: Player, t: Tables, route: int, esd: Detail, roll: int,
                     skill: Option<SkillState>)
    modifies player
    ensures var (learnt, replies) := Finish(req, t, route, esd, roll, skill);
      && player.skills == Learnt(old(player.skills), req.skillId, learnt)
      && player.replies == old(player.replies) + replies
      && player.sp == old(player.sp) && player.adena == old(player.adena) && player.items == old(player.items)
  {
    if req.enchantType == 2 {
      if skill.Some? {
        player.AddSkill(req.skillId, skill.value);
      }
      player.Send(Result(true));
      if route > 0 {
        player.Send(Msg(UntrainDecreasedByOne));
      } else {
        player.Send(Msg(UntrainReset));
      }
    } else if req.enchantType == 4 || roll <= esd.rate {
      if skill.Some? {
        player.AddSkill(req.skillId, skill.value);
      }
      player.Send(Result(true));
      player.Send(Msg(Succeeded));
    } else if req.enchantType == 0 {
      var resetRoute := if esd.startLevel > 0 then route else 0;
      if t.skillExists(req.skillId, req.skillLvl, resetRoute, esd.startLevel) {
        player.AddSkill(req.skillId, SkillState(req.skillLvl, resetRoute, esd.startLevel));
      }
      player.Send(Msg(Failed));
      player.Send(Result(false));
    } else {
      player.Send(Msg(FailedLevelRemains));
      player.Send(Result(false));
    }
    player.Send(InfoRefreshed);
  }
}
