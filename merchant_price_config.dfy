/** `MerchantPriceConfigTable`: the merchant price configurations (a base tax, an optional
    castle whose tax is added, and the zone they apply in), loaded from a document into an
    id-keyed table with a default, and looked up by id or by the zone a creature stands in.
    The document is given already read: the root's `defaultPriceConfig` attribute and its
    children, with each attribute either absent or present with its value. */
module MerchantPriceConfig {
  import opened JavaInt
  import opened Wrappers

  /** A child node of the document root. */
  datatype Node = Node(
    name: string,
    id: Option<int>,
    nameAttr: Option<string>,
    baseTax: Option<int>,
    castleId: Option<int>,
    zoneId: Option<int>
  )

  datatype Root = Root(defaultPriceConfig: Option<int>, children: seq<Node>)

  /** The constructor arguments of one `MerchantPriceConfig`. */
  datatype PriceConfig = PriceConfig(id: int, name: string, baseTax: int, castleId: int, zoneId: int)

  /** `parseMerchantPriceConfig`: NotAConfig stands for its null result, Failed for the
      IllegalStateException it throws. */
  datatype ParseResult = NotAConfig | Parsed(config: PriceConfig) | Failed(message: string)

  /** What `CastleManager.getCastleById` returns, as far as the price config reads it. */
  datatype Castle = Castle(id: int, taxPercent: int)

  datatype LoadResult = Loaded | LoadFailed(message: string)

  const MISSING_ID := "Must define the priceConfig 'id'"
  const MISSING_NAME := "Must define the priceConfig 'name'"
  const MISSING_BASE_TAX := "Must define the priceConfig 'baseTax'"
  const MISSING_DEFAULT := "merchantPriceConfig must define an 'defaultPriceConfig'"
  const DEFAULT_NOT_LOADED := "'defaultPriceConfig' points to an non-loaded priceConfig"

  function Parse(n: Node): (r: ParseResult)
    ensures r.NotAConfig? <==> n.name != "priceConfig"
    ensures r.Failed? <==> n.name == "priceConfig" && (n.id.None? || n.nameAttr.None? || n.baseTax.None?)
    ensures n.name == "priceConfig" && n.id.None? ==> r == Failed(MISSING_ID)
    ensures n.name == "priceConfig" && n.id.Some? && n.nameAttr.None? ==> r == Failed(MISSING_NAME)
    ensures n.name == "priceConfig" && n.id.Some? && n.nameAttr.Some? && n.baseTax.None? ==> r == Failed(MISSING_BASE_TAX)
    ensures r.Parsed? ==>
      && r.config.id == n.id.value && r.config.name == n.nameAttr.value && r.config.baseTax == n.baseTax.value
      && r.config.castleId == (if n.castleId.Some? then n.castleId.value else -1)
      && r.config.zoneId == (if n.zoneId.Some? then n.zoneId.value else -1)
  {
    if n.name != "priceConfig" then NotAConfig
    else if n.id.None? then Failed(MISSING_ID)
    else if n.nameAttr.None? then Failed(MISSING_NAME)
    else if n.baseTax.None? then Failed(MISSING_BASE_TAX)
    else
      var castleId := if n.castleId.Some? then n.castleId.value else -1;
      var zoneId := if n.zoneId.Some? then n.zoneId.value else -1;
      Parsed(PriceConfig(n.id.value, n.nameAttr.value, n.baseTax.value, castleId, zoneId))
  }

  /** The configs parsed from the children in order, up to the first child that fails, and
      that failure's message. */
  function ParseChildren(children: seq<Node>): (r: (seq<PriceConfig>, Option<string>))
  {
    if children == [] then ([], None)
    else
      var prev := ParseChildren(children[..|children| - 1]);
      if prev.1.Some? then prev
      else match Parse(children[|children| - 1])
        case NotAConfig => prev
        case Parsed(c) => (prev.0 + [c], None)
        case Failed(m) => (prev.0, Some(m))
  }

  /** The table the configs produce when each is put under its id in turn. */
  function Keyed(cs: seq<PriceConfig>): map<int, PriceConfig>
  {
    if cs == [] then map[] else Keyed(cs[..|cs| - 1])[cs[|cs| - 1].id := cs[|cs| - 1]]
  }

  /** A config is filed under an id exactly when some parsed config has that id, and it is the
      last of them: a later duplicate replaces an earlier one. */
  lemma {:induction false} KeyedLastWins(cs: seq<PriceConfig>, id: int)
    ensures id in Keyed(cs) <==> exists i :: 0 <= i < |cs| && cs[i].id == id
    ensures id in Keyed(cs) ==>
      exists i :: (0 <= i < |cs| && Keyed(cs)[id] == cs[i] && cs[i].id == id &&
                   forall j :: i < j < |cs| ==> cs[j].id != id)
  {
    if cs != [] {
      var front := cs[..|cs| - 1];
      KeyedLastWins(front, id);
      assert forall i :: 0 <= i < |front| ==> front[i] == cs[i];
      if cs[|cs| - 1].id != id && id in Keyed(cs) {
        var i :| 0 <= i < |front| && Keyed(front)[id] == front[i] && front[i].id == id
          && forall j :: i < j < |front| ==> front[j].id != id;
        assert Keyed(cs)[id] == cs[i];
      }
    }
  }

  /** Parsing one more child extends the parsed configs by that child's result. */
  lemma ParseChildrenStep(children: seq<Node>, i: nat)
    requires i < |children| && ParseChildren(children[..i]).1.None?
    ensures var prev := ParseChildren(children[..i]);
      ParseChildren(children[..i + 1]) == match Parse(children[i])
        case NotAConfig => prev
        case Parsed(c) => (prev.0 + [c], None)
        case Failed(m) => (prev.0, Some(m))
  {
    assert children[..i + 1][..i] == children[..i];
  }

  /** Once a child fails, the children after it are not parsed. */
  lemma {:induction false} ParseChildrenStops(children: seq<Node>, i: nat)
    requires i <= |children| && ParseChildren(children[..i]).1.Some?
    ensures ParseChildren(children) == ParseChildren(children[..i])
  {
    if i < |children| {
      var k := |children| - 1;
      assert children[..k][..i] == children[..i];
      ParseChildrenStops(children[..k], i);
    } else {
      assert children[..i] == children;
    }
  }

  lemma KeyedStep(cs: seq<PriceConfig>, c: PriceConfig)
    ensures Keyed(cs + [c]) == Keyed(cs)[c.id := c]
  {
    assert (cs + [c])[..|cs|] == cs;
  }

  /** A `MerchantPriceConfig`: fixed fields from the document, and the castle reference that
      `updateReferences` resolves. */
  class MerchantPriceConfig {
    const id: int
    const name: string
    const baseTax: int
    const castleId: int
    const zoneId: int
    var castle: Option<Castle>

    constructor (c: PriceConfig)
      ensures Fields() == c && castle.None?
    {
      id := c.id;
      name := c.name;
      baseTax := c.baseTax;
      castleId := c.castleId;
      zoneId := c.zoneId;
      castle := None;
    }

    function Fields(): (c: PriceConfig)
      ensures c.id == id && c.name == name && c.baseTax == baseTax
      ensures c.castleId == castleId && c.zoneId == zoneId
    {
      PriceConfig(id, name, baseTax, castleId, zoneId)
    }

    predicate HasCastle()
      reads this
    {
      castle.Some?
    }

    /** `getTotalTax`: the castle's tax percent plus the base tax, in Java `int` arithmetic,
        or the base tax alone without a castle. */
    function GetTotalTax(): (t: int)
      reads this
      requires IsInt(baseTax) && (castle.Some? ==> IsInt(castle.value.taxPercent))
      ensures IsInt(t)
      ensures !HasCastle() ==> t == baseTax
      ensures HasCastle() && IsInt(castle.value.taxPercent + baseTax) ==> t == castle.value.taxPercent + baseTax
      ensures HasCastle() ==> (t - (castle.value.taxPercent + baseTax)) % TWO_32 == 0
    {
      if HasCastle() then Wrap32(castle.value.taxPercent + baseTax) else baseTax
    }

    /** `updateReferences`: links the castle with id `castleId`, or none when there is no
        such castle. */
    method UpdateReferences(castles: map<int, Castle>)
      modifies this
      ensures HasCastle() <==> castleId in castles
      ensures HasCastle() ==> castle.value == castles[castleId]
    {
      castle := if castleId in castles then Some(castles[castleId]) else None;
    }
  }

  class MerchantPriceConfigTable {
    var mpcs: map<int, MerchantPriceConfig>
    var defaultMpc: MerchantPriceConfig?

    constructor ()
      ensures mpcs == map[] && defaultMpc == null
    {
      mpcs := map[];
      defaultMpc := null;
    }

    /** `getMerchantPriceConfig(int)`: None stands for null. */
    function GetById(id: int): (r: Option<MerchantPriceConfig>)
      reads this
      ensures r.Some? <==> id in mpcs
      ensures r.Some? ==> r.value == mpcs[id]
    {
      if id in mpcs then Some(mpcs[id]) else None
    }

    /** `getMerchantPriceConfig(Creature)`: the first config, in the table's iteration order,
        whose zone the creature's world region contains, or the default. `region` holds the
        ids of the zones of the creature's region, None when it has no region. */
    method GetForCreature(region: Option<set<int>>, order: seq<int>) returns (r: MerchantPriceConfig?)
      requires forall k :: 0 <= k < |order| ==> order[k] in mpcs
      requires forall id :: id in mpcs ==> id in order
      ensures region.None? ==> r == defaultMpc
      ensures || (r == defaultMpc && forall k :: 0 <= k < |order| ==> !InZone(mpcs[order[k]], region))
              || exists k :: 0 <= k < |order| && r == mpcs[order[k]] && InZone(mpcs[order[k]], region) &&
                   forall k' :: 0 <= k' < k ==> !InZone(mpcs[order[k']], region)
    {
      for k := 0 to |order|
        invariant forall k' :: 0 <= k' < k ==> !InZone(mpcs[order[k']], region)
      {
        var mpc := mpcs[order[k]];
        if region.Some? && mpc.zoneId in region.value {
          return mpc;
        }
      }
      return defaultMpc;
    }

    /** `mpcs.put(mpc.getId(), mpc)` with a config built from c. */
    method Put(c: PriceConfig)
      modifies this
      ensures mpcs.Keys == old(mpcs).Keys + {c.id}
      ensures fresh(mpcs[c.id]) && mpcs[c.id].Fields() == c && mpcs[c.id].castle.None?
      ensures forall id :: id in old(mpcs) && id != c.id ==> mpcs[id] == old(mpcs)[id]
      ensures defaultMpc == old(defaultMpc)
    {
      var mpc := new MerchantPriceConfig(c);
      mpcs := mpcs[c.id := mpc];
    }

    /** The loop of `loadXML` over the root's children: every config parsed before the first
        failure is put in the table, and that failure is returned. */
    method LoadChildren(children: seq<Node>) returns (failure: Option<string>)
      modifies this
      ensures var parsed := ParseChildren(children);
        && failure == parsed.1
        && mpcs.Keys == old(mpcs).Keys + Keyed(parsed.0).Keys
        && (forall id :: id in Keyed(parsed.0) ==>
              fresh(mpcs[id]) && mpcs[id].Fields() == Keyed(parsed.0)[id] && mpcs[id].castle.None?)
        && (forall id :: id in old(mpcs) && id !in Keyed(parsed.0) ==> mpcs[id] == old(mpcs)[id])
      ensures defaultMpc == old(defaultMpc)
    {
      ghost var cs: seq<PriceConfig> := [];
      for i := 0 to |children|
        invariant ParseChildren(children[..i]) == (cs, None)
        invariant defaultMpc == old(defaultMpc)
        invariant mpcs.Keys == old(mpcs).Keys + Keyed(cs).Keys
        invariant forall id :: id in Keyed(cs) ==>
          fresh(mpcs[id]) && mpcs[id].Fields() == Keyed(cs)[id] && mpcs[id].castle.None?
        invariant forall id :: id in old(mpcs) && id !in Keyed(cs) ==> mpcs[id] == old(mpcs)[id]
      {
        ParseChildrenStep(children, i);
        match Parse(children[i]) {
          case NotAConfig =>
          case Failed(m) =>
            ParseChildrenStops(children, i + 1);
            return Some(m);
          case Parsed(c) =>
            KeyedStep(cs, c);
            Put(c);
            cs := cs + [c];
        }
      }
      assert children[..|children|] == children;
      return None;
    }

    /** `loadXML`: `file` is None when the file does not exist. A failure leaves in the table
        every config put before it, as the thrown exception does. */
    method LoadXML(file: Option<Root>) returns (r: LoadResult)
      modifies this
      ensures file.None? ==> r == Loaded && mpcs == old(mpcs) && defaultMpc == old(defaultMpc)
      ensures file.Some? && file.value.defaultPriceConfig.None? ==>
        r == LoadFailed(MISSING_DEFAULT) && mpcs == old(mpcs) && defaultMpc == old(defaultMpc)
      ensures file.Some? && file.value.defaultPriceConfig.Some? ==>
        var parsed := ParseChildren(file.value.children);
        var defaultId := file.value.defaultPriceConfig.value;
        && mpcs.Keys == old(mpcs).Keys + Keyed(parsed.0).Keys
        && (forall id :: id in Keyed(parsed.0) ==>
              fresh(mpcs[id]) && mpcs[id].Fields() == Keyed(parsed.0)[id] && mpcs[id].castle.None?)
        && (forall id :: id in old(mpcs) && id !in Keyed(parsed.0) ==> mpcs[id] == old(mpcs)[id])
        && if parsed.1.Some? then r == LoadFailed(parsed.1.value) && defaultMpc == old(defaultMpc)
           else if defaultId !in mpcs then r == LoadFailed(DEFAULT_NOT_LOADED) && defaultMpc == old(defaultMpc)
           else r == Loaded && defaultMpc == mpcs[defaultId]
    {
      if file.None? {
        return Loaded;
      }
      if file.value.defaultPriceConfig.None? {
        return LoadFailed(MISSING_DEFAULT);
      }
      var defaultPriceConfigId := file.value.defaultPriceConfig.value;
      var failure := LoadChildren(file.value.children);
      if failure.Some? {
        return LoadFailed(failure.value);
      }
      var found := GetById(defaultPriceConfigId);
      if found.None? {
        return LoadFailed(DEFAULT_NOT_LOADED);
      }
      defaultMpc := found.value;
      return Loaded;
    }

    /** `updateReferences` of the table: resolves the castle of every config. */
    method UpdateReferences(castles: map<int, Castle>, order: seq<int>)
      requires forall k :: 0 <= k < |order| ==> order[k] in mpcs
      requires forall id :: id in mpcs ==> id in order
      modifies mpcs.Values
      ensures forall id :: id in mpcs ==> Resolved(mpcs[id], castles)
    {
      for k := 0 to |order|
        invariant forall k' :: 0 <= k' < k ==> Resolved(mpcs[order[k']], castles)
      {
        var mpc := mpcs[order[k]];
        mpc.UpdateReferences(castles);
      }
    }
  }

  /** The castle reference of a config agrees with the castle table. */
  predicate Resolved(mpc: MerchantPriceConfig, castles: map<int, Castle>)
    reads mpc
  {
    && (mpc.HasCastle() <==> mpc.castleId in castles)
    && (mpc.HasCastle() ==> mpc.castle.value == castles[mpc.castleId])
  }

  /** Whether the creature's region contains the config's zone. */
  predicate InZone(mpc: MerchantPriceConfig, region: Option<set<int>>)
  {
    region.Some? && mpc.zoneId in region.value
  }
}
