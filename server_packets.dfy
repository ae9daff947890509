/** `ExUseSharedGroupItem` (format "dddd" after the header): the reuse delay of an item's
    shared reuse group, in seconds. */
module ExUseSharedGroupItem {
  import opened JavaInt
  import opened Wire

  /** Milliseconds to whole seconds, truncated toward zero as Java's `/` does. */
  function Seconds(ms: int): (s: int)
    ensures 0 <= ms ==> 0 <= s && s * 1000 <= ms < s * 1000 + 1000
    ensures ms < 0 ==> s <= 0 && s * 1000 - 1000 < ms <= s * 1000
  {
    Quot(ms, 1000)
  }

  /** A negative time is truncated toward zero, not floored. */
  lemma SecondsTruncates()
    ensures Seconds(-1999) == -1 && Seconds(1999) == 1 && Seconds(-999) == 0
  {
  }

  /** The fields `writeImpl` writes for a packet built from these times. */
  function Body(itemId: int, grpId: int, remainedTime: int, totalTime: int): (fs: seq<Field>)
    ensures Format(fs) == "dddd"
  {
    [D(itemId), D(grpId), D(Seconds(remainedTime)), D(Seconds(totalTime))]
  }

  /** A client reads the ids back unchanged and the times in whole seconds. */
  lemma BodyReadBack(itemId: int, grpId: int, remainedTime: int, totalTime: int)
    ensures var fs := Body(itemId, grpId, remainedTime, totalTime);
      && fs[0].d == itemId && fs[1].d == grpId
      && (remainedTime >= 0 ==> fs[2].d * 1000 <= remainedTime < fs[2].d * 1000 + 1000)
      && (totalTime >= 0 ==> fs[3].d * 1000 <= totalTime < fs[3].d * 1000 + 1000)
  {
  }

  class ExUseSharedGroupItem {
    const itemId: int
    const grpId: int
    const remainedTime: int
    const totalTime: int

    constructor (itemId: int, grpId: int, remainedTime: int, totalTime: int)
      ensures this.itemId == itemId && this.grpId == grpId
      ensures this.remainedTime == Seconds(remainedTime) && this.totalTime == Seconds(totalTime)
    {
      this.itemId := itemId;
      this.grpId := grpId;
      this.remainedTime := Quot(remainedTime, 1000);
      this.totalTime := Quot(totalTime, 1000);
    }

    method WriteImpl(w: PacketWriter)
      modifies w
      ensures w.fields == old(w.fields) + [D(itemId), D(grpId), D(remainedTime), D(totalTime)]
    {
      w.WriteD(itemId);
      w.WriteD(grpId);
      w.WriteD(remainedTime);
      w.WriteD(totalTime);
    }
  }

  /** Building the packet and writing it yields `Body`. */
  method Write(itemId: int, grpId: int, remainedTime: int, totalTime: int) returns (fs: seq<Field>)
    ensures fs == Body(itemId, grpId, remainedTime, totalTime)
  {
    var p := new ExUseSharedGroupItem(itemId, grpId, remainedTime, totalTime);
    var w := new PacketWriter();
    p.WriteImpl(w);
    fs := w.fields;
  }
}

/** `ObservationMode`: moves the client's camera to a point, followed by three fixed bytes. */
module ObservationMode {
  import opened Wire

  /** The fields `writeImpl` writes for the point (x, y, z). */
  function Body(x: int, y: int, z: int): (fs: seq<Field>)
    ensures Format(fs) == "dddccc"
  {
    [D(x), D(y), D(z), C(0x00), C(0xc0), C(0x00)]
  }

  /** The point can be read back from the packet, so different points give different
      packets, and the three trailing bytes do not depend on the point. */
  lemma BodyDeterminesPoint(x: int, y: int, z: int, x': int, y': int, z': int)
    ensures Body(x, y, z) == Body(x', y', z') <==> (x, y, z) == (x', y', z')
    ensures Body(x, y, z)[3..] == Body(x', y', z')[3..] == [C(0), C(192), C(0)]
  {
    if Body(x, y, z) == Body(x', y', z') {
      assert Body(x, y, z)[0] == Body(x', y', z')[0];
      assert Body(x, y, z)[1] == Body(x', y', z')[1];
      assert Body(x, y, z)[2] == Body(x', y', z')[2];
    }
  }

  class ObservationMode {
    const x: int
    const y: int
    const z: int

    constructor (x: int, y: int, z: int)
      ensures this.x == x && this.y == y && this.z == z
    {
      this.x := x;
      this.y := y;
      this.z := z;
    }

    method WriteImpl(w: PacketWriter)
      modifies w
      ensures w.fields == old(w.fields) + Body(x, y, z)
    {
      w.WriteD(x);
      w.WriteD(y);
      w.WriteD(z);
      w.WriteC(0x00);
      w.WriteC(0xc0);
      w.WriteC(0x00);
    }
  }

  /** Building the packet and writing it yields `Body`. */
  method Write(x: int, y: int, z: int) returns (fs: seq<Field>)
    ensures fs == Body(x, y, z)
  {
    var p := new ObservationMode(x, y, z);
    var w := new PacketWriter();
    p.WriteImpl(w);
    fs := w.fields;
  }
}
