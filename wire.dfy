/** The packet wire format shared by the client packets: a packet body is a sequence of
    bytes read front to back; `readC` reads one unsigned byte, `readH` two bytes unsigned,
    `readD` four bytes and `readQ` eight bytes as two's complement, all little-endian.
    Server packets are modelled one level up, as the sequence of typed fields that
    `writeD`/`writeC` append. */
module Wire {
  import opened JavaInt
  import opened Wrappers

  type byte = x: int | 0 <= x < 256

  function Pow256(k: nat): (p: nat)
    ensures p >= 1
  {
    if k == 0 then 1 else 256 * Pow256(k - 1)
  }

  /** The unsigned little-endian value of a byte string. */
  function Unsigned(bs: seq<byte>): (n: nat)
    ensures n < Pow256(|bs|)
  {
    if bs == [] then 0 else bs[0] + 256 * Unsigned(bs[1..])
  }

  /** The k-byte little-endian encoding of n. */
  function EncodeUnsigned(n: nat, k: nat): (bs: seq<byte>)
    requires n < Pow256(k)
    ensures |bs| == k
  {
    if k == 0 then [] else [n % 256] + EncodeUnsigned(n / 256, k - 1)
  }

  lemma {:induction false} UnsignedRoundTrip(n: nat, k: nat)
    requires n < Pow256(k)
    ensures Unsigned(EncodeUnsigned(n, k)) == n
  {
    if k > 0 {
      UnsignedRoundTrip(n / 256, k - 1);
      var bs := EncodeUnsigned(n, k);
      assert bs[1..] == EncodeUnsigned(n / 256, k - 1);
    }
  }

  /** Two's complement reading of a k-byte unsigned value. */
  function Signed(u: nat, k: nat): int
    requires k > 0
  {
    if 2 * u < Pow256(k) then u else u - Pow256(k)
  }

  /** The unsigned k-byte image of a signed value. */
  function Unsign(x: int, k: nat): (u: nat)
    requires k > 0
    ensures u < Pow256(k)
  {
    x % Pow256(k)
  }

  lemma SignedRoundTrip(x: int, k: nat)
    requires k == 4 || k == 8
    requires -(Pow256(k) as int) <= 2 * x < Pow256(k)
    ensures Signed(Unsign(x, k), k) == x
  {
    Pow256Values();
  }

  lemma Pow256Values()
    ensures Pow256(1) == 0x100 && Pow256(2) == 0x1_0000 && Pow256(4) == 0x1_0000_0000
    ensures Pow256(8) == 0x1_0000_0000_0000_0000
  {
    assert Pow256(2) == 256 * Pow256(1);
    assert Pow256(4) == 256 * (256 * Pow256(2));
    assert Pow256(8) == 256 * (256 * (256 * (256 * Pow256(4))));
  }

  // ---- readers: each returns the value read and the bytes that remain ----

  function ReadC(bs: seq<byte>): (r: (int, seq<byte>))
    requires |bs| >= 1
    ensures 0 <= r.0 < 256 && r.1 == bs[1..]
  {
    (bs[0], bs[1..])
  }

  function ReadH(bs: seq<byte>): (r: (int, seq<byte>))
    requires |bs| >= 2
    ensures 0 <= r.0 < 0x1_0000 && r.1 == bs[2..]
  {
    Pow256Values();
    (Unsigned(bs[..2]), bs[2..])
  }

  function ReadD(bs: seq<byte>): (r: (int, seq<byte>))
    requires |bs| >= 4
    ensures IsInt(r.0) && r.1 == bs[4..]
  {
    Pow256Values();
    (Signed(Unsigned(bs[..4]), 4), bs[4..])
  }

  function ReadQ(bs: seq<byte>): (r: (int, seq<byte>))
    requires |bs| >= 8
    ensures IsLong(r.0) && r.1 == bs[8..]
  {
    Pow256Values();
    (Signed(Unsigned(bs[..8]), 8), bs[8..])
  }

  // ---- encoders, the inverses of the readers ----

  function EncodeC(x: int): (bs: seq<byte>)
    requires 0 <= x < 256
    ensures |bs| == 1
  {
    [x]
  }

  function EncodeH(x: int): (bs: seq<byte>)
    requires 0 <= x < 0x1_0000
    ensures |bs| == 2
  {
    Pow256Values();
    EncodeUnsigned(x, 2)
  }

  function EncodeD(x: int): (bs: seq<byte>)
    requires IsInt(x)
    ensures |bs| == 4
  {
    EncodeUnsigned(Unsign(x, 4), 4)
  }

  function EncodeQ(x: int): (bs: seq<byte>)
    requires IsLong(x)
    ensures |bs| == 8
  {
    EncodeUnsigned(Unsign(x, 8), 8)
  }

  lemma ReadCEncode(x: int, rest: seq<byte>)
    requires 0 <= x < 256
    ensures ReadC(EncodeC(x) + rest) == (x, rest)
  {
    assert (EncodeC(x) + rest)[1..] == rest;
  }

  lemma ReadHEncode(x: int, rest: seq<byte>)
    requires 0 <= x < 0x1_0000
    ensures ReadH(EncodeH(x) + rest) == (x, rest)
  {
    Pow256Values();
    var bs := EncodeH(x) + rest;
    assert bs[..2] == EncodeH(x);
    assert bs[2..] == rest;
    UnsignedRoundTrip(x, 2);
  }

  lemma ReadDEncode(x: int, rest: seq<byte>)
    requires IsInt(x)
    ensures ReadD(EncodeD(x) + rest) == (x, rest)
  {
    Pow256Values();
    var bs := EncodeD(x) + rest;
    assert bs[..4] == EncodeD(x);
    assert bs[4..] == rest;
    UnsignedRoundTrip(Unsign(x, 4), 4);
    SignedRoundTrip(x, 4);
  }

  lemma ReadQEncode(x: int, rest: seq<byte>)
    requires IsLong(x)
    ensures ReadQ(EncodeQ(x) + rest) == (x, rest)
  {
    Pow256Values();
    var bs := EncodeQ(x) + rest;
    assert bs[..8] == EncodeQ(x);
    assert bs[8..] == rest;
    UnsignedRoundTrip(Unsign(x, 8), 8);
    SignedRoundTrip(x, 8);
  }

  // ---- server packets: the typed fields appended by writeD / writeC ----

  datatype Field = D(d: int) | C(c: int)

  /** The format letters of a field sequence, as the packets' format comments write them. */
  function Format(fs: seq<Field>): (f: string)
    ensures |f| == |fs|
    ensures forall i :: 0 <= i < |fs| ==> (f[i] == 'd' <==> fs[i].D?) && (f[i] == 'c' <==> fs[i].C?)
  {
    if fs == [] then [] else [if fs[0].D? then 'd' else 'c'] + Format(fs[1..])
  }

  /** The body of a server packet under construction. */
  class PacketWriter {
    var fields: seq<Field>

    constructor ()
      ensures fields == []
    {
      fields := [];
    }

    method WriteD(x: int)
      modifies this
      ensures fields == old(fields) + [D(x)]
    {
      fields := fields + [D(x)];
    }

    method WriteC(x: int)
      modifies this
      ensures fields == old(fields) + [C(x)]
    {
      fields := fields + [C(x)];
    }
  }
}
