/** Java's decimal rendering of an `int` (string concatenation with `+`), and a reader
    that recovers the number, used to show that the strings the game builds keep
    their numbers recoverable. */
module Decimal {
  import opened Wrappers

  predicate IsDigit(c: char) { '0' <= c <= '9' }

  function DigitChar(d: int): (c: char)
    requires 0 <= d < 10
    ensures IsDigit(c)
  {
    "0123456789"[d]
  }

  function DigitValue(c: char): (d: int)
    requires IsDigit(c)
    ensures 0 <= d < 10
  {
    c as int - '0' as int
  }

  lemma DigitRoundTrip(d: int)
    requires 0 <= d < 10
    ensures DigitValue(DigitChar(d)) == d
  {
  }

  /** Decimal digits of a natural number, most significant first, no leading zeros. */
  function NatToString(n: nat): (s: string)
    ensures |s| >= 1
    ensures forall i :: 0 <= i < |s| ==> IsDigit(s[i])
  {
    if n < 10 then [DigitChar(n)] else NatToString(n / 10) + [DigitChar(n % 10)]
  }

  /** `"" + n` for a Java int n. */
  function IntToString(n: int): (s: string)
    ensures |s| >= 1
    ensures n < 0 ==> s[0] == '-'
    ensures n >= 0 ==> IsDigit(s[0])
    ensures forall i :: 0 < i < |s| ==> IsDigit(s[i])
  {
    if n < 0 then "-" + NatToString(-n) else NatToString(n)
  }

  /** The value of a run of digits, read most significant first. */
  function DigitsValue(ds: string): (n: nat)
    requires forall i :: 0 <= i < |ds| ==> IsDigit(ds[i])
  {
    if ds == [] then 0 else DigitsValue(ds[..|ds| - 1]) * 10 + DigitValue(ds[|ds| - 1])
  }

  /** The number of leading digits of s. */
  function DigitRun(s: string): (k: nat)
    ensures k <= |s|
    ensures forall i :: 0 <= i < k ==> IsDigit(s[i])
    ensures k < |s| ==> !IsDigit(s[k])
  {
    if s == [] || !IsDigit(s[0]) then 0 else 1 + DigitRun(s[1..])
  }

  /** Reads at least one digit; returns the number and the rest. */
  function ReadNat(s: string): (r: Option<(nat, string)>)
    ensures r.Some? ==> |r.value.1| < |s|
  {
    var k := DigitRun(s);
    if k == 0 then None
    else Some((DigitsValue(s[..k]), s[k..]))
  }

  /** Reads an optional minus sign followed by at least one digit; returns the number and the rest. */
  function ReadInt(s: string): (r: Option<(int, string)>)
    ensures r.Some? ==> |r.value.1| < |s|
  {
    if |s| > 0 && s[0] == '-' then
      match ReadNat(s[1..])
      case None => None
      case Some((v, rest)) => Some((-(v as int), rest))
    else
      match ReadNat(s)
      case None => None
      case Some((v, rest)) => Some((v as int, rest))
  }

  lemma {:induction false} NatToStringValue(n: nat)
    ensures DigitsValue(NatToString(n)) == n
  {
    var s := NatToString(n);
    if n >= 10 {
      NatToStringValue(n / 10);
      assert s[..|s| - 1] == NatToString(n / 10);
    }
  }

  lemma {:induction false} DigitRunOfDigits(ds: string, rest: string)
    requires forall i :: 0 <= i < |ds| ==> IsDigit(ds[i])
    requires rest == [] || !IsDigit(rest[0])
    ensures DigitRun(ds + rest) == |ds|
  {
    if ds != [] {
      assert (ds + rest)[1..] == ds[1..] + rest;
      DigitRunOfDigits(ds[1..], rest);
    } else {
      assert ds + rest == rest;
    }
  }

  /** A run of digits followed by a non-digit reads as its value. */
  lemma ReadDigits(ds: string, rest: string)
    requires |ds| >= 1 && forall i :: 0 <= i < |ds| ==> IsDigit(ds[i])
    requires rest == [] || !IsDigit(rest[0])
    ensures ReadNat(ds + rest) == Some((DigitsValue(ds), rest))
  {
    var body := ds + rest;
    DigitRunOfDigits(ds, rest);
    assert body[..|ds|] == ds;
    assert body[|ds|..] == rest;
  }

  /** Reading back a rendered int recovers it, provided what follows does not continue the digits. */
  lemma ReadIntToString(n: int, rest: string)
    requires rest == [] || !IsDigit(rest[0])
    ensures ReadInt(IntToString(n) + rest) == Some((n, rest))
  {
    var m: nat := if n < 0 then -n else n;
    var ds := NatToString(m);
    NatToStringValue(m);
    ReadDigits(ds, rest);
    if n < 0 {
      assert IntToString(n) + rest == "-" + (ds + rest);
      ReadMinus(ds + rest);
    } else {
      assert IntToString(n) + rest == ds + rest;
    }
  }

  /** A minus sign negates what follows it. */
  lemma ReadMinus(body: string)
    ensures ReadInt("-" + body) ==
      match ReadNat(body)
      case None => None
      case Some((v, rest)) => Some((-(v as int), rest))
  {
    assert ("-" + body)[1..] == body;
  }

  /** The rest of s after the given prefix, if s starts with it. */
  function After(prefix: string, s: string): (r: Option<string>)
    ensures r.Some? ==> s == prefix + r.value
  {
    if |prefix| <= |s| && s[..|prefix|] == prefix then
      assert s == s[..|prefix|] + s[|prefix|..];
      Some(s[|prefix|..])
    else None
  }

  lemma AfterPrefix(prefix: string, rest: string)
    ensures After(prefix, prefix + rest) == Some(rest)
  {
    assert (prefix + rest)[..|prefix|] == prefix;
    assert (prefix + rest)[|prefix|..] == rest;
  }

  /** A separator, then a number. */
  function NumberAfter(sep: string, s: string): (r: Option<(int, string)>)
  {
    match After(sep, s)
    case None => None
    case Some(t) => ReadInt(t)
  }

  lemma NumberAfterOf(sep: string, n: int, rest: string)
    requires rest == [] || !IsDigit(rest[0])
    ensures NumberAfter(sep, sep + IntToString(n) + rest) == Some((n, rest))
  {
    assert sep + IntToString(n) + rest == sep + (IntToString(n) + rest);
    AfterPrefix(sep, IntToString(n) + rest);
    ReadIntToString(n, rest);
  }
}
