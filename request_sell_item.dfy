/** `RequestSellItem`: a player sells items from their inventory to a merchant's buy list.
    The packet body holds the buy list id, the number of entries, and per entry an object
    id, an item id and a count; `readImpl` parses and screens it, `processSell` checks the
    player and the merchant, then sells item by item, crediting the total at the end. */
module RequestSellItem {
  import opened JavaInt
  import opened Wire
  import opened Wrappers

  /** The length in bytes of one entry of the packet. */
  const BATCH_LENGTH: int := 16

  /** One entry as the client sends it. */
  datatype Entry = Entry(objectId: int, itemId: int, count: int)

  /** One entry as the packet keeps it: the item id is read and dropped. */
  datatype Item = Item(objectId: int, count: int)

  /** The entry's fields fit their wire widths: D, D and Q. */
  predicate Fits(e: Entry)
  {
    IsInt(e.objectId) && IsInt(e.itemId) && IsLong(e.count)
  }

  /** The screen every entry must pass. */
  predicate Acceptable(e: Entry)
  {
    e.objectId >= 1 && e.itemId >= 1 && e.count >= 1
  }

  predicate AllAcceptable(es: seq<Entry>)
  {
    forall i :: 0 <= i < |es| ==> Acceptable(es[i])
  }

  function KeptAll(es: seq<Entry>): (items: seq<Item>)
    ensures |items| == |es|
    ensures forall i :: 0 <= i < |es| ==> items[i] == Item(es[i].objectId, es[i].count)
  {
    if es == [] then [] else [Item(es[0].objectId, es[0].count)] + KeptAll(es[1..])
  }

  function EntryBytes(e: Entry): (bs: seq<byte>)
    requires Fits(e)
    ensures |bs| == BATCH_LENGTH
  {
    EncodeD(e.objectId) + EncodeD(e.itemId) + EncodeQ(e.count)
  }

  function EntriesBytes(es: seq<Entry>): (bs: seq<byte>)
    requires forall i :: 0 <= i < |es| ==> Fits(es[i])
    ensures |bs| == BATCH_LENGTH * |es|
  {
    if es == [] then [] else EntryBytes(es[0]) + EntriesBytes(es[1..])
  }

  /** The body of a request to sell the entries es to buy list listId. */
  function Body(listId: int, es: seq<Entry>): (bs: seq<byte>)
    requires IsInt(listId) && IsInt(|es|)
    requires forall i :: 0 <= i < |es| ==> Fits(es[i])
    ensures |bs| == 8 + BATCH_LENGTH * |es|
  {
    EncodeD(listId) + EncodeD(|es|) + EntriesBytes(es)
  }

  /** One entry read as D, D, Q, and the bytes after it. */
  function ReadEntry(bs: seq<byte>): (r: (Entry, seq<byte>))
    requires |bs| >= BATCH_LENGTH
    ensures Fits(r.0) && r.1 == bs[BATCH_LENGTH..]
  {
    var (objectId, r1) := ReadD(bs);
    var (itemId, r2) := ReadD(r1);
    var (count, r3) := ReadQ(r2);
    assert r3 == bs[BATCH_LENGTH..];
    (Entry(objectId, itemId, count), r3)
  }

  lemma ReadEntryEncode(e: Entry, rest: seq<byte>)
    requires Fits(e)
    ensures ReadEntry(EntryBytes(e) + rest) == (e, rest)
  {
    var bs := EntryBytes(e) + rest;
    assert bs == EncodeD(e.objectId) + (EncodeD(e.itemId) + (EncodeQ(e.count) + rest));
    ReadDEncode(e.objectId, EncodeD(e.itemId) + (EncodeQ(e.count) + rest));
    ReadDEncode(e.itemId, EncodeQ(e.count) + rest);
    ReadQEncode(e.count, rest);
  }

  /** Reading the entries: Underflow stands for the BufferUnderflowException a short body
      raises, Rejected for an entry that fails the screen. */
  datatype Entries = Underflow | Rejected | Accepted(items: seq<Item>)

  /** Items already read, in front of what the rest of the body yields. */
  function PrependAll(xs: seq<Item>, r: Entries): Entries
  {
    if r.Accepted? then Accepted(xs + r.items) else r
  }

  lemma PrependStep(xs: seq<Item>, x: Item, r: Entries)
    ensures PrependAll(xs, PrependAll([x], r)) == PrependAll(xs + [x], r)
  {
    if r.Accepted? {
      assert xs + ([x] + r.items) == (xs + [x]) + r.items;
    }
  }

  /** The loop of `readImpl` over n entries. */
  function ReadEntries(bs: seq<byte>, n: nat): (r: Entries)
    ensures r.Accepted? ==> |r.items| == n && |bs| >= BATCH_LENGTH * n
    ensures r.Accepted? ==> forall i :: 0 <= i < n ==> r.items[i].objectId >= 1 && r.items[i].count >= 1
  {
    if n == 0 then Accepted([])
    else if |bs| < BATCH_LENGTH then Underflow
    else
      var (e, rest) := ReadEntry(bs);
      if !Acceptable(e) then Rejected
      else PrependAll([Item(e.objectId, e.count)], ReadEntries(rest, n - 1))
  }

  /** Entries written and read back: all of them when every one passes the screen,
      otherwise a rejection. */
  lemma {:induction false} ReadEntriesEncode(es: seq<Entry>, rest: seq<byte>)
    requires forall i :: 0 <= i < |es| ==> Fits(es[i])
    ensures ReadEntries(EntriesBytes(es) + rest, |es|) ==
      if AllAcceptable(es) then Accepted(KeptAll(es)) else Rejected
  {
    if es != [] {
      var bs := EntriesBytes(es) + rest;
      assert bs == EntryBytes(es[0]) + (EntriesBytes(es[1..]) + rest);
      ReadEntryEncode(es[0], EntriesBytes(es[1..]) + rest);
      ReadEntriesEncode(es[1..], rest);
      assert AllAcceptable(es) <==> Acceptable(es[0]) && AllAcceptable(es[1..]) by {
        if Acceptable(es[0]) && AllAcceptable(es[1..]) {
          forall i | 0 <= i < |es|
            ensures Acceptable(es[i])
          {
            if i > 0 {
              assert es[i] == es[1..][i - 1];
            }
          }
        }
      }
    }
  }

  /** What `readImpl` does with a body: BufferUnderflow when it throws, otherwise the list id
      and the item list, None when it stays or is set null. */
  datatype ReadOutcome = BufferUnderflow | Read(listId: int, items: Option<seq<Item>>)

  /** `readImpl`, with `Config.MAX_ITEM_IN_PACKET` given as maxItems. The length check
      multiplies in Java `int`, so the product wraps. */
  function Parse(bs: seq<byte>, maxItems: int): (r: ReadOutcome)
    ensures r.Read? && r.items.Some? ==>
      var items := r.items.value;
      && 1 <= |items| <= maxItems
      && |bs| == 8 + BATCH_LENGTH * |items|
      && forall i :: 0 <= i < |items| ==> items[i].objectId >= 1 && items[i].count >= 1
  {
    if |bs| < 8 then BufferUnderflow
    else
      var (listId, r1) := ReadD(bs);
      var (count, body) := ReadD(r1);
      if count <= 0 || count > maxItems || Wrap32(count * BATCH_LENGTH) != |body| then Read(listId, None)
      else
        match ReadEntries(body, count)
        case Underflow => BufferUnderflow
        case Rejected => Read(listId, None)
        case Accepted(items) =>
          assert |body| == BATCH_LENGTH * count by {
            if count * BATCH_LENGTH > INT_MAX {
              assert false;
            }
          }
          Read(listId, Some(items))
  }

  /** A well-formed request reads back as written: the list id, and the entries in packet
      order when every entry passes the screen, else no list at all. */
  lemma ParseBody(listId: int, es: seq<Entry>, maxItems: int)
    requires IsInt(listId) && 1 <= |es| <= maxItems && BATCH_LENGTH * |es| <= INT_MAX
    requires forall i :: 0 <= i < |es| ==> Fits(es[i])
    ensures Parse(Body(listId, es), maxItems) ==
      Read(listId, if AllAcceptable(es) then Some(KeptAll(es)) else None)
  {
    var entries := EntriesBytes(es);
    ParseHeader(listId, |es|, entries, maxItems);
    ReadEntriesEncode(es, []);
    assert entries + [] == entries;
  }

  /** The header of a body is read back as written, and the count passes the check. */
  lemma ParseHeader(listId: int, count: int, entries: seq<byte>, maxItems: int)
    requires IsInt(listId) && 1 <= count <= maxItems && |entries| == BATCH_LENGTH * count <= INT_MAX
    ensures Parse(EncodeD(listId) + EncodeD(count) + entries, maxItems) ==
      match ReadEntries(entries, count)
      case Underflow => BufferUnderflow
      case Rejected => Read(listId, None)
      case Accepted(items) => Read(listId, Some(items))
  {
    var bs := EncodeD(listId) + EncodeD(count) + entries;
    assert bs == EncodeD(listId) + (EncodeD(count) + entries);
    ReadDEncode(listId, EncodeD(count) + entries);
    ReadDEncode(count, entries);
    assert Wrap32(count * BATCH_LENGTH) == |entries|;
  }

  /** A count the length check refuses leaves no list, whatever follows. */
  lemma CountRefused(bs: seq<byte>, maxItems: int)
    requires |bs| >= 8
    requires var count := ReadD(bs[4..]).0;
      count <= 0 || count > maxItems || Wrap32(count * BATCH_LENGTH) != |bs| - 8
    ensures Parse(bs, maxItems) == Read(ReadD(bs).0, None)
  {
    assert ReadD(bs).1 == bs[4..];
  }

  // ---- processSell ----

  /** An inventory item, as selling sees it. */
  datatype Stock = Stock(count: int, salePrice: nat, sellable: bool)

  /** What `checkItemManipulation(objectId, count, "sell")` lets through: an item the player
      holds at least count of. */
  predicate Manipulable(inventory: map<int, Stock>, it: Item)
  {
    it.objectId in inventory && inventory[it.objectId].count >= it.count
  }

  /** The inventory after count of the item leave it, destroyed or moved to the refund list. */
  function Take(inventory: map<int, Stock>, it: Item): (r: map<int, Stock>)
    requires Manipulable(inventory, it)
    ensures r.Keys <= inventory.Keys
    ensures forall id :: id in inventory && id != it.objectId ==> id in r && r[id] == inventory[id]
    ensures it.objectId in r <==> inventory[it.objectId].count != it.count
    ensures it.objectId in r ==> r[it.objectId].count == inventory[it.objectId].count - it.count
  {
    var s := inventory[it.objectId];
    if s.count == it.count then inventory - {it.objectId}
    else inventory[it.objectId := s.(count := s.count - it.count)]
  }

  /** An item sold, at the price it was sold for. */
  datatype Sale = Sale(item: Item, price: nat)

  /** The state of the selling loop: the inventory and refund list, the running total, the
      sales so far, and whether the player was punished for an over-limit sale. */
  datatype SellRun = SellRun(inventory: map<int, Stock>, refund: seq<Item>, total: int, sold: seq<Sale>,
                             punished: bool)

  /** One turn of the selling loop, the total kept in Java `long` arithmetic, with
      `PcInventory.MAX_ADENA` given as maxAdena and `Config.ALLOW_REFUND` as allowRefund. */
  function SellStep(run: SellRun, it: Item, maxAdena: int, allowRefund: bool): (r: SellRun)
    requires it.count >= 1
    ensures !Manipulable(run.inventory, it) || !run.inventory[it.objectId].sellable ==> r == run
    ensures !r.punished ==> r.refund == run.refund + (if allowRefund && r != run then [it] else [])
  {
    if !Manipulable(run.inventory, it) || !run.inventory[it.objectId].sellable then run
    else
      var price := run.inventory[it.objectId].salePrice;
      var total := Wrap64(run.total + Wrap64(price * it.count));
      if Quot(maxAdena, it.count) < price || total > maxAdena then run.(total := total, punished := true)
      else
        var r := run.(inventory := Take(run.inventory, it),
                      refund := if allowRefund then run.refund + [it] else run.refund,
                      total := total, sold := run.sold + [Sale(it, price)]);
        assert r.sold != run.sold;
        r
  }

  /** The selling loop: item by item, stopping at the first punishment. */
  function SellAll(run: SellRun, items: seq<Item>, maxAdena: int, allowRefund: bool): SellRun
    requires forall i :: 0 <= i < |items| ==> items[i].count >= 1
    decreases |items|
  {
    if items == [] || run.punished then run
    else SellAll(SellStep(run, items[0], maxAdena, allowRefund), items[1..], maxAdena, allowRefund)
  }

  /** The exact worth of the sales. */
  function Revenue(sold: seq<Sale>): int
  {
    if sold == [] then 0
    else Revenue(sold[..|sold| - 1]) + sold[|sold| - 1].price * sold[|sold| - 1].item.count
  }

  /** The guard keeps a sale's worth within the limit. */
  lemma GuardBoundsWorth(maxAdena: int, count: int, price: nat)
    requires maxAdena >= 0 && count >= 1 && Quot(maxAdena, count) >= price
    ensures 0 <= price * count <= maxAdena
  {
    MulMono(price, maxAdena / count, count);
  }

  /** While the limit is at most half of `Long.MAX_VALUE`, a turn that is not punished adds
      the sale's exact worth and keeps the total within the limit. */
  lemma SellStepExact(run: SellRun, it: Item, maxAdena: int, allowRefund: bool)
    requires it.count >= 1 && 0 <= maxAdena && 2 * maxAdena <= LONG_MAX
    requires !run.punished && run.total == Revenue(run.sold) && 0 <= run.total <= maxAdena
    ensures var r := SellStep(run, it, maxAdena, allowRefund);
      !r.punished ==> r.total == Revenue(r.sold) && 0 <= r.total <= maxAdena
  {
    if Manipulable(run.inventory, it) && run.inventory[it.objectId].sellable {
      var price := run.inventory[it.objectId].salePrice;
      if Quot(maxAdena, it.count) >= price {
        GuardBoundsWorth(maxAdena, it.count, price);
        var sold := run.sold + [Sale(it, price)];
        assert sold[..|sold| - 1] == run.sold;
      }
    }
  }

  /** The same over the whole loop: without punishment the total is the exact worth of what
      was sold, within the limit. */
  lemma {:induction false} SellAllExact(run: SellRun, items: seq<Item>, maxAdena: int, allowRefund: bool)
    requires forall i :: 0 <= i < |items| ==> items[i].count >= 1
    requires 0 <= maxAdena && 2 * maxAdena <= LONG_MAX
    requires !run.punished && run.total == Revenue(run.sold) && 0 <= run.total <= maxAdena
    ensures var r := SellAll(run, items, maxAdena, allowRefund);
      !r.punished ==> r.total == Revenue(r.sold) && 0 <= r.total <= maxAdena
    decreases |items|
  {
    if items != [] {
      var next := SellStep(run, items[0], maxAdena, allowRefund);
      SellStepExact(run, items[0], maxAdena, allowRefund);
      if !next.punished {
        SellAllExact(next, items[1..], maxAdena, allowRefund);
      }
    }
  }

  /** With the limit at `Long.MAX_VALUE` the guard cannot catch a running total that wraps:
      two sales worth 2^62 each end unpunished with a negative total. */
  lemma TotalWrapsAtLongMax()
    ensures var inventory := map[1 := Stock(1, 0x4000_0000_0000_0000, true), 2 := Stock(1, 0x4000_0000_0000_0000, true)];
      var r := SellAll(SellRun(inventory, [], 0, [], false), [Item(1, 1), Item(2, 1)], LONG_MAX, false);
      !r.punished && r.total < 0
  {
    var inventory := map[1 := Stock(1, 0x4000_0000_0000_0000, true), 2 := Stock(1, 0x4000_0000_0000_0000, true)];
    var items := [Item(1, 1), Item(2, 1)];
    var run0 := SellRun(inventory, [], 0, [], false);
    var run1 := SellStep(run0, items[0], LONG_MAX, false);
    assert run1.total == 0x4000_0000_0000_0000 && !run1.punished;
    assert 2 in run1.inventory;
    var run2 := SellStep(run1, items[1], LONG_MAX, false);
    assert Wrap64(0x8000_0000_0000_0000) == LONG_MIN;
    assert run2.total == LONG_MIN && !run2.punished;
    assert items[1..][1..] == [];
  }

  /** What `processSell` leaves a player with, as far as selling is concerned. */
  datatype SellEvent = SellingTooFast | ActionFailed | Punished | AdenaAdded(amount: int) | SellListSent

  /** How the target and buy-list checks end: refused with ActionFailed (no target in reach,
      or not a merchant), a false list id (punished), or a buy list found. */
  datatype ListCheck = TargetRefused | FalseListId | ListFound

  /** The guards of `processSell` before the loop, in order: the event that ends the request,
      or None when selling goes ahead. */
  function Gate(floodOk: bool, hasItems: bool, karmaCanShop: bool, reputation: int, check: ListCheck)
    : (r: Option<SellEvent>)
    ensures !floodOk ==> r == Some(SellingTooFast)
    ensures floodOk && !hasItems ==> r == Some(ActionFailed)
    ensures floodOk && hasItems && !karmaCanShop && reputation < 0 ==> r == Some(ActionFailed)
    ensures floodOk && hasItems && (karmaCanShop || reputation >= 0) && check == TargetRefused ==>
      r == Some(ActionFailed)
    ensures r.None? <==> floodOk && hasItems && (karmaCanShop || reputation >= 0) && check == ListFound
    ensures r == Some(Punished) <==>
      floodOk && hasItems && (karmaCanShop || reputation >= 0) && check == FalseListId
  {
    if !floodOk then Some(SellingTooFast)
    else if !hasItems then Some(ActionFailed)
    else if !karmaCanShop && reputation < 0 then Some(ActionFailed)
    else match check
      case TargetRefused => Some(ActionFailed)
      case FalseListId => Some(Punished)
      case ListFound => None
  }

  /** The seller, as far as selling changes it. */
  class Player {
    const reputation: int
    var inventory: map<int, Stock>
    var refund: seq<Item>
    var events: seq<SellEvent>

    constructor (reputation: int, inventory: map<int, Stock>)
      ensures this.reputation == reputation && this.inventory == inventory
      ensures refund == [] && events == []
    {
      this.reputation := reputation;
      this.inventory := inventory;
      refund := [];
      events := [];
    }
  }

  class RequestSellItem {
    /** The unread rest of the packet body. */
    var buf: seq<byte>
    var listId: int
    var items: array?<Item>

    constructor (body: seq<byte>)
      ensures buf == body && listId == 0 && items == null
    {
      buf := body;
      listId := 0;
      items := null;
    }

    method ReadD() returns (x: int)
      requires |buf| >= 4
      modifies this
      ensures (x, buf) == Wire.ReadD(old(buf))
      ensures listId == old(listId) && items == old(items)
    {
      x, buf := Wire.ReadD(buf).0, Wire.ReadD(buf).1;
    }

    method ReadQ() returns (x: int)
      requires |buf| >= 8
      modifies this
      ensures (x, buf) == Wire.ReadQ(old(buf))
      ensures listId == old(listId) && items == old(items)
    {
      x, buf := Wire.ReadQ(buf).0, Wire.ReadQ(buf).1;
    }

    /** `readImpl`: returns false where the Java code throws BufferUnderflowException. */
    method ReadImpl(maxItems: int) returns (ok: bool)
      requires items == null
      modifies this
      ensures ok <==> !Parse(old(buf), maxItems).BufferUnderflow?
      ensures ok ==> listId == Parse(old(buf), maxItems).listId
      ensures ok ==> (items == null <==> Parse(old(buf), maxItems).items.None?)
      ensures ok && items != null ==> fresh(items) && items[..] == Parse(old(buf), maxItems).items.value
    {
      if |buf| < 4 {
        return false;
      }
      listId := ReadD();
      if |buf| < 4 {
        return false;
      }
      var count := ReadD();
      if count <= 0 || count > maxItems || Wrap32(count * BATCH_LENGTH) != |buf| {
        return true;
      }
      var a := new Item[count];
      items := a;
      ok := ReadItems(count, a);
    }

    /** The three reads of one entry: fails where a read would underflow. */
    method ReadEntryFromBuf() returns (ok: bool, e: Entry)
      modifies this
      ensures ok <==> |old(buf)| >= BATCH_LENGTH
      ensures ok ==> (e, buf) == ReadEntry(old(buf))
      ensures listId == old(listId) && items == old(items)
    {
      if |buf| < 4 {
        return false, Entry(0, 0, 0);
      }
      var objectId := ReadD();
      if |buf| < 4 {
        return false, Entry(0, 0, 0);
      }
      var itemId := ReadD();
      if |buf| < 8 {
        return false, Entry(0, 0, 0);
      }
      var cnt := ReadQ();
      return true, Entry(objectId, itemId, cnt);
    }

    /** The loop of `readImpl`: fills a entry by entry from the body, or nulls the list at
        the first entry that fails the screen. */
    method ReadItems(count: nat, a: array<Item>) returns (ok: bool)
      requires a.Length == count && items == a
      modifies this, a
      ensures listId == old(listId)
      ensures var r := ReadEntries(old(buf), count);
        && (ok <==> !r.Underflow?)
        && (ok ==> (items == null <==> r.Rejected?))
        && (ok && items != null ==> items == a && a[..] == r.items)
    {
      ghost var body := buf;
      for i := 0 to count
        invariant items == a && listId == old(listId)
        invariant ReadEntries(body, count) == PrependAll(a[..i], ReadEntries(buf, count - i))
      {
        ghost var here := buf;
        var read, e := ReadEntryFromBuf();
        if !read {
          return false;
        }
        if e.objectId < 1 || e.itemId < 1 || e.count < 1 {
          items := null;
          return true;
        }
        a[i] := Item(e.objectId, e.count);
        PrependStep(a[..i], Item(e.objectId, e.count), ReadEntries(buf, count - i - 1));
        assert a[..i + 1] == a[..i] + [Item(e.objectId, e.count)];
      }
      assert a[..count] == a[..];
      return true;
    }

    /** The loop of `processSell` over the packet's items. */
    method Sell(player: Player, maxAdena: int, allowRefund: bool) returns (total: int, punished: bool)
      requires items != null && forall i :: 0 <= i < items.Length ==> items[i].count >= 1
      modifies player
      ensures var r := SellAll(SellRun(old(player.inventory), old(player.refund), 0, [], false), items[..],
                               maxAdena, allowRefund);
        && player.inventory == r.inventory && player.refund == r.refund
        && total == r.total && punished == r.punished
      ensures player.events == old(player.events)
    {
      total := 0;
      ghost var sold: seq<Sale> := [];
      for k := 0 to items.Length
        invariant player.events == old(player.events)
        invariant SellAll(SellRun(old(player.inventory), old(player.refund), 0, [], false), items[..],
                          maxAdena, allowRefund)
          == SellAll(SellRun(player.inventory, player.refund, total, sold, false), items[k..],
                     maxAdena, allowRefund)
      {
        var it := items[k];
        assert items[k..][0] == it && items[k..][1..] == items[k + 1..];
        if !Manipulable(player.inventory, it) || !player.inventory[it.objectId].sellable {
          continue;
        }
        var price := player.inventory[it.objectId].salePrice;
        total := Wrap64(total + Wrap64(price * it.count));
        if Quot(maxAdena, it.count) < price || total > maxAdena {
          return total, true;
        }
        player.inventory := Take(player.inventory, it);
        if allowRefund {
          player.refund := player.refund + [it];
        }
        sold := sold + [Sale(it, price)];
      }
      assert items[items.Length..] == [];
      return total, false;
    }

    /** `processSell`, with `Config.ALT_GAME_KARMA_PLAYER_CAN_SHOP` as karmaCanShop, the flood
        protector's verdict as floodOk and the target and buy-list checks as check. Adena is
        credited once, after the loop, and only a non-zero total. */
    method ProcessSell(player: Player?, floodOk: bool, karmaCanShop: bool, check: ListCheck,
                       maxAdena: int, allowRefund: bool)
      requires items != null ==> forall i :: 0 <= i < items.Length ==> items[i].count >= 1
      modifies player
      ensures player != null ==>
        var gate := Gate(floodOk, items != null, karmaCanShop, player.reputation, check);
        gate.Some? ==>
          && player.events == old(player.events) + [gate.value]
          && player.inventory == old(player.inventory) && player.refund == old(player.refund)
      ensures player != null && Gate(floodOk, items != null, karmaCanShop, player.reputation, check).None? ==>
        var r := SellAll(SellRun(old(player.inventory), old(player.refund), 0, [], false), items[..],
                         maxAdena, allowRefund);
        && player.inventory == r.inventory && player.refund == r.refund
        && player.events == old(player.events) +
             if r.punished then [Punished]
             else (if r.total != 0 then [AdenaAdded(r.total)] else []) + [SellListSent]
    {
      if player == null {
        return;
      }
      var gate := Gate(floodOk, items != null, karmaCanShop, player.reputation, check);
      if gate.Some? {
        player.events := player.events + [gate.value];
        return;
      }
      var total, punished := Sell(player, maxAdena, allowRefund);
      if punished {
        player.events := player.events + [Punished];
        return;
      }
      if total != 0 {
        player.events := player.events + [AdenaAdded(total)];
      }
      player.events := player.events + [SellListSent];
    }
  }
}
