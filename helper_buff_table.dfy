/** `HelperBuffTable`: the newbie helper's buff list and the level bounds the helper quotes,
    for physic classes, magic classes and servitors, gathered while loading the buff
    records. The XML document is given as its sequence of child nodes. */
module HelperBuffTable {

  /** A child node of the document, with the attributes the loader reads. */
  datatype Node = Node(
    name: string,
    skillId: int,
    skillLevel: int,
    lowerLevel: int,
    upperLevel: int,
    isMagic: bool,
    forSummon: bool
  )

  /** One loaded entry (`HelperBuff` built from the node's StatsSet). */
  datatype HelperBuff = HelperBuff(
    skillId: int,
    skillLevel: int,
    lowerLevel: int,
    upperLevel: int,
    isMagicClass: bool,
    forSummon: bool
  )

  /** The class group a pair of bounds belongs to. */
  datatype Group = Physic | Magic | Servitor

  function LowerAscii(c: char): char
  {
    if 'A' <= c <= 'Z' then (c as int + 32) as char else c
  }

  /** `String.equalsIgnoreCase`, with ASCII case folding. */
  predicate EqualsIgnoreCase(a: string, b: string)
  {
    |a| == |b| && forall i :: 0 <= i < |a| ==> LowerAscii(a[i]) == LowerAscii(b[i])
  }

  predicate IsBuffNode(d: Node)
  {
    EqualsIgnoreCase(d.name, "buff")
  }

  lemma BuffNameSpellings()
    ensures IsBuffNode(Node("buff", 0, 0, 0, 0, false, false))
    ensures IsBuffNode(Node("BuFF", 0, 0, 0, 0, false, false))
    ensures !IsBuffNode(Node("buffs", 0, 0, 0, 0, false, false))
    ensures !IsBuffNode(Node("bufg", 0, 0, 0, 0, false, false))
  {
    assert LowerAscii('B') == 'b' && LowerAscii('F') == 'f';
    assert "bufg"[3] == 'g';
  }

  /** Whether a buff's bounds count towards a group: non-magic buffs towards the physic
      bounds, magic ones towards the magic bounds, and summon buffs towards the servitor
      bounds whatever their magic flag. */
  predicate InGroup(d: Node, g: Group)
  {
    match g
    case Physic => !d.isMagic
    case Magic => d.isMagic
    case Servitor => d.forSummon
  }

  function Entry(d: Node): HelperBuff
  {
    HelperBuff(d.skillId, d.skillLevel, d.lowerLevel, d.upperLevel, d.isMagic, d.forSummon)
  }

  /** The entries the buff nodes produce, in document order. */
  function Buffs(doc: seq<Node>): (r: seq<HelperBuff>)
    ensures |r| <= |doc|
  {
    if doc == [] then []
    else
      var d := doc[|doc| - 1];
      Buffs(doc[..|doc| - 1]) + (if IsBuffNode(d) then [Entry(d)] else [])
  }

  /** One node's effect on a group's lowest bound. */
  function LowerStep(d: Node, g: Group, r: int): int
  {
    if IsBuffNode(d) && InGroup(d, g) && d.lowerLevel < r then d.lowerLevel else r
  }

  /** One node's effect on a group's highest bound. */
  function UpperStep(d: Node, g: Group, r: int): int
  {
    if IsBuffNode(d) && InGroup(d, g) && d.upperLevel > r then d.upperLevel else r
  }

  /** The lowest bound of a group after the nodes of doc, starting from init. */
  function Lowest(doc: seq<Node>, g: Group, init: int): int
  {
    if doc == [] then init else LowerStep(doc[|doc| - 1], g, Lowest(doc[..|doc| - 1], g, init))
  }

  /** The highest bound of a group after the nodes of doc, starting from init. */
  function Highest(doc: seq<Node>, g: Group, init: int): int
  {
    if doc == [] then init else UpperStep(doc[|doc| - 1], g, Highest(doc[..|doc| - 1], g, init))
  }

  /** The lowest bound is the minimum of its start value and the lower levels of the group's
      buffs: no larger than any of them, and equal to one of them. */
  lemma {:induction false} LowestIsMinimum(doc: seq<Node>, g: Group, init: int)
    ensures Lowest(doc, g, init) <= init
    ensures forall i :: 0 <= i < |doc| && IsBuffNode(doc[i]) && InGroup(doc[i], g) ==>
      Lowest(doc, g, init) <= doc[i].lowerLevel
    ensures || Lowest(doc, g, init) == init
            || exists i :: 0 <= i < |doc| && IsBuffNode(doc[i]) && InGroup(doc[i], g) && Lowest(doc, g, init) == doc[i].lowerLevel
  {
    if doc != [] {
      var front := doc[..|doc| - 1];
      LowestIsMinimum(front, g, init);
      assert forall i :: 0 <= i < |front| ==> front[i] == doc[i];
    }
  }

  /** The highest bound is the maximum of its start value and the upper levels of the
      group's buffs. */
  lemma {:induction false} HighestIsMaximum(doc: seq<Node>, g: Group, init: int)
    ensures Highest(doc, g, init) >= init
    ensures forall i :: 0 <= i < |doc| && IsBuffNode(doc[i]) && InGroup(doc[i], g) ==>
      Highest(doc, g, init) >= doc[i].upperLevel
    ensures || Highest(doc, g, init) == init
            || exists i :: 0 <= i < |doc| && IsBuffNode(doc[i]) && InGroup(doc[i], g) && Highest(doc, g, init) == doc[i].upperLevel
  {
    if doc != [] {
      var front := doc[..|doc| - 1];
      HighestIsMaximum(front, g, init);
      assert forall i :: 0 <= i < |front| ==> front[i] == doc[i];
    }
  }

  /** Without a buff of the group, the bounds keep their start values (100 and 1 at load). */
  lemma UntouchedGroupKeepsDefaults(doc: seq<Node>, g: Group, lo: int, hi: int)
    requires forall i :: 0 <= i < |doc| ==> !(IsBuffNode(doc[i]) && InGroup(doc[i], g))
    ensures Lowest(doc, g, lo) == lo && Highest(doc, g, hi) == hi
  {
    LowestIsMinimum(doc, g, lo);
    HighestIsMaximum(doc, g, hi);
  }

  /** A node that is not a buff adds no entry, wherever it stands. */
  lemma {:induction false} NonBuffNodeAddsNothing(a: seq<Node>, x: Node, b: seq<Node>)
    requires !IsBuffNode(x)
    ensures Buffs(a + [x] + b) == Buffs(a + b)
  {
    if b == [] {
      assert (a + [x] + b)[..|a| + 1 - 1] == a;
      assert a + b == a;
    } else {
      var b' := b[..|b| - 1];
      NonBuffNodeAddsNothing(a, x, b');
      assert (a + [x] + b)[..|a + [x] + b| - 1] == a + [x] + b';
      assert (a + b)[..|a + b| - 1] == a + b';
    }
  }

  /** A node that is not a buff moves no lowest bound, wherever it stands. */
  lemma {:induction false} NonBuffNodeKeepsLowest(a: seq<Node>, x: Node, b: seq<Node>, g: Group, init: int)
    requires !IsBuffNode(x)
    ensures Lowest(a + [x] + b, g, init) == Lowest(a + b, g, init)
  {
    if b == [] {
      assert (a + [x] + b)[..|a| + 1 - 1] == a;
      assert a + b == a;
    } else {
      var b' := b[..|b| - 1];
      NonBuffNodeKeepsLowest(a, x, b', g, init);
      assert (a + [x] + b)[..|a + [x] + b| - 1] == a + [x] + b';
      assert (a + b)[..|a + b| - 1] == a + b';
    }
  }

  /** A node that is not a buff moves no highest bound, wherever it stands. */
  lemma {:induction false} NonBuffNodeKeepsHighest(a: seq<Node>, x: Node, b: seq<Node>, g: Group, init: int)
    requires !IsBuffNode(x)
    ensures Highest(a + [x] + b, g, init) == Highest(a + b, g, init)
  {
    if b == [] {
      assert (a + [x] + b)[..|a| + 1 - 1] == a;
      assert a + b == a;
    } else {
      var b' := b[..|b| - 1];
      NonBuffNodeKeepsHighest(a, x, b', g, init);
      assert (a + [x] + b)[..|a + [x] + b| - 1] == a + [x] + b';
      assert (a + b)[..|a + b| - 1] == a + b';
    }
  }

  /** Extending the prefix of the document by one node applies that node's step. */
  lemma PrefixStep(doc: seq<Node>, i: nat, g: Group, lo: int, hi: int)
    requires i < |doc|
    ensures Buffs(doc[..i + 1]) == Buffs(doc[..i]) + (if IsBuffNode(doc[i]) then [Entry(doc[i])] else [])
    ensures Lowest(doc[..i + 1], g, lo) == LowerStep(doc[i], g, Lowest(doc[..i], g, lo))
    ensures Highest(doc[..i + 1], g, hi) == UpperStep(doc[i], g, Highest(doc[..i], g, hi))
  {
    assert doc[..i + 1][..i] == doc[..i];
  }

  /** Every buff node gives exactly one entry, in document order. */
  lemma {:induction false} BuffsCount(doc: seq<Node>)
    ensures |Buffs(doc)| == |set i | 0 <= i < |doc| && IsBuffNode(doc[i])|
  {
    if doc != [] {
      var n := |doc| - 1;
      BuffsCount(doc[..n]);
      var prev := set i | 0 <= i < n && IsBuffNode(doc[..n][i]);
      assert prev == set i | 0 <= i < n && IsBuffNode(doc[i]);
      if IsBuffNode(doc[n]) {
        assert (set i | 0 <= i < |doc| && IsBuffNode(doc[i])) == prev + {n};
      } else {
        assert (set i | 0 <= i < |doc| && IsBuffNode(doc[i])) == prev;
      }
    }
  }

  class HelperBuffTable {
    var helperBuff: seq<HelperBuff>
    var magicClassLowestLevel: int
    var physicClassLowestLevel: int
    var magicClassHighestLevel: int
    var physicClassHighestLevel: int
    var servitorLowestLevel: int
    var servitorHighestLevel: int

    constructor ()
      ensures helperBuff == []
      ensures magicClassLowestLevel == 100 && physicClassLowestLevel == 100 && servitorLowestLevel == 100
      ensures magicClassHighestLevel == 1 && physicClassHighestLevel == 1 && servitorHighestLevel == 1
    {
      helperBuff := [];
      magicClassLowestLevel := 100;
      physicClassLowestLevel := 100;
      magicClassHighestLevel := 1;
      physicClassHighestLevel := 1;
      servitorLowestLevel := 100;
      servitorHighestLevel := 1;
    }

    /** The body of the load loop for one node. */
    method LoadNode(d: Node)
      modifies this
      ensures helperBuff == old(helperBuff) + (if IsBuffNode(d) then [Entry(d)] else [])
      ensures physicClassLowestLevel == LowerStep(d, Physic, old(physicClassLowestLevel))
      ensures physicClassHighestLevel == UpperStep(d, Physic, old(physicClassHighestLevel))
      ensures magicClassLowestLevel == LowerStep(d, Magic, old(magicClassLowestLevel))
      ensures magicClassHighestLevel == UpperStep(d, Magic, old(magicClassHighestLevel))
      ensures servitorLowestLevel == LowerStep(d, Servitor, old(servitorLowestLevel))
      ensures servitorHighestLevel == UpperStep(d, Servitor, old(servitorHighestLevel))
    {
      if EqualsIgnoreCase(d.name, "buff") {
        var lowerLevel := d.lowerLevel;
        var upperLevel := d.upperLevel;
        var isMagicClass := d.isMagic;
        var forSummon := d.forSummon;
        if !isMagicClass {
          if lowerLevel < physicClassLowestLevel {
            physicClassLowestLevel := lowerLevel;
          }
          if upperLevel > physicClassHighestLevel {
            physicClassHighestLevel := upperLevel;
          }
        } else {
          if lowerLevel < magicClassLowestLevel {
            magicClassLowestLevel := lowerLevel;
          }
          if upperLevel > magicClassHighestLevel {
            magicClassHighestLevel := upperLevel;
          }
        }
        if forSummon {
          if lowerLevel < servitorLowestLevel {
            servitorLowestLevel := lowerLevel;
          }
          if upperLevel > servitorHighestLevel {
            servitorHighestLevel := upperLevel;
          }
        }
        helperBuff := helperBuff + [Entry(d)];
      }
    }

    /** `restoreHelperBuffData`, over the document's child nodes. */
    method RestoreHelperBuffData(doc: seq<Node>)
      modifies this
      ensures helperBuff == old(helperBuff) + Buffs(doc)
      ensures physicClassLowestLevel == Lowest(doc, Physic, old(physicClassLowestLevel))
      ensures physicClassHighestLevel == Highest(doc, Physic, old(physicClassHighestLevel))
      ensures magicClassLowestLevel == Lowest(doc, Magic, old(magicClassLowestLevel))
      ensures magicClassHighestLevel == Highest(doc, Magic, old(magicClassHighestLevel))
      ensures servitorLowestLevel == Lowest(doc, Servitor, old(servitorLowestLevel))
      ensures servitorHighestLevel == Highest(doc, Servitor, old(servitorHighestLevel))
    {
      for i := 0 to |doc|
        invariant helperBuff == old(helperBuff) + Buffs(doc[..i])
        invariant physicClassLowestLevel == Lowest(doc[..i], Physic, old(physicClassLowestLevel))
        invariant physicClassHighestLevel == Highest(doc[..i], Physic, old(physicClassHighestLevel))
        invariant magicClassLowestLevel == Lowest(doc[..i], Magic, old(magicClassLowestLevel))
        invariant magicClassHighestLevel == Highest(doc[..i], Magic, old(magicClassHighestLevel))
        invariant servitorLowestLevel == Lowest(doc[..i], Servitor, old(servitorLowestLevel))
        invariant servitorHighestLevel == Highest(doc[..i], Servitor, old(servitorHighestLevel))
      {
        PrefixStep(doc, i, Physic, old(physicClassLowestLevel), old(physicClassHighestLevel));
        PrefixStep(doc, i, Magic, old(magicClassLowestLevel), old(magicClassHighestLevel));
        PrefixStep(doc, i, Servitor, old(servitorLowestLevel), old(servitorHighestLevel));
        LoadNode(doc[i]);
      }
      assert doc[..|doc|] == doc;
    }
  }
}
