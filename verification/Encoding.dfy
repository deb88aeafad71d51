/** Variable-length integers, and byte strings found inside longer ones. */
module Encoding {
  import opened Entries

  /** `part` lies in `s` at position p. */
  ghost predicate Has(s: Bytes, p: nat, part: Bytes) {
    p + |part| <= |s| && forall i :: 0 <= i < |part| ==> s[p + i] == part[i]
  }

  lemma HasParts(s: Bytes, p: nat, a: Bytes, b: Bytes)
    requires Has(s, p, a + b)
    ensures Has(s, p, a) && Has(s, p + |a|, b)
  {
    assert forall i :: 0 <= i < |a| ==> (a + b)[i] == a[i];
    assert forall i :: 0 <= i < |b| ==> (a + b)[|a| + i] == b[i];
  }

  lemma HasFive(s: Bytes, p: nat, a: Bytes, b: Bytes, c: Bytes, d: Bytes, e: Bytes)
    requires Has(s, p, a + b + c + d + e)
    ensures Has(s, p, a) && Has(s, p + |a|, b) && Has(s, p + |a| + |b|, c)
    ensures Has(s, p + |a| + |b| + |c|, d) && Has(s, p + |a| + |b| + |c| + |d|, e)
  {
    HasParts(s, p, a + b + c + d, e);
    HasParts(s, p, a + b + c, d);
    HasParts(s, p, a + b, c);
    HasParts(s, p, a, b);
  }

  lemma HasSlice(s: Bytes, p: nat, part: Bytes)
    ensures Has(s, p, part) <==> p + |part| <= |s| && s[p..p + |part|] == part
  {
    if p + |part| <= |s| && s[p..p + |part|] == part {
      var t := s[p..p + |part|];
      assert forall i :: 0 <= i < |t| ==> s[p + i] == t[i];
    }
  }

  // ----------------------------------------------------------------- varints

  const LIMIT_32: int := 0x1_0000_0000

  function Varint(value: nat): Bytes {
    if value < 128 then [value] else [value % 128 + 128] + Varint(value / 128)
  }

  datatype Number = Number(value: nat, next: nat)

  const LIMIT_64: int := 0x1_0000_0000_0000_0000

  /** The number at p, low seven bits first, in at most so many bytes. */
  function VarintAt(s: Bytes, p: nat, most: nat): (r: Option<Number>)
    ensures r.Some? ==> p < r.value.next <= |s|
    decreases |s| - p
  {
    if most == 0 || p >= |s| then None
    else if s[p] < 128 then Some(Number(s[p], p + 1))
    else
      match VarintAt(s, p + 1, most - 1)
      case None => None
      case Some(rest) => Some(Number(s[p] % 128 + 128 * rest.value, rest.next))
  }

  /** get_varint32: bits past the thirty-second are shifted out. */
  function GetVarint32(s: Bytes, p: nat): (r: Option<Number>)
    ensures r.Some? ==> p < r.value.next <= |s|
  {
    match VarintAt(s, p, 5)
    case None => None
    case Some(n) => Some(n.(value := n.value % LIMIT_32))
  }

  function GetVarint64(s: Bytes, p: nat): (r: Option<Number>)
    ensures r.Some? ==> p < r.value.next <= |s|
  {
    match VarintAt(s, p, 10)
    case None => None
    case Some(n) => Some(n.(value := n.value % LIMIT_64))
  }

  /** What so many bytes can hold. */
  function Capacity(most: nat): nat {
    if most == 0 then 1 else 128 * Capacity(most - 1)
  }

  lemma {:induction false} VarintFrom(s: Bytes, p: nat, most: nat, value: nat)
    requires 0 < most && value < Capacity(most) && Has(s, p, Varint(value))
    ensures VarintAt(s, p, most) == Some(Number(value, p + |Varint(value)|))
    decreases most
  {
    if value < 128 {
      assert s[p] == Varint(value)[0];
    } else {
      HasParts(s, p, [value % 128 + 128], Varint(value / 128));
      assert s[p] == [value % 128 + 128][0];
      assert Capacity(most) == 128 * Capacity(most - 1);
      VarintFrom(s, p + 1, most - 1, value / 128);
    }
  }

  lemma Capacities()
    ensures Capacity(5) == 0x8_0000_0000 && Capacity(10) == 0x40_0000_0000_0000_0000
  {
    assert Capacity(2) == 0x4000;
    assert Capacity(4) == 0x1000_0000;
    assert Capacity(6) == 0x400_0000_0000;
    assert Capacity(8) == 0x100_0000_0000_0000;
  }

  /** A varint takes no more bytes than its value needs. */
  lemma {:induction false} VarintIsShort(value: nat, most: nat)
    requires 0 < most
    ensures |Varint(value)| <= most <==> value < Capacity(most)
    decreases most
  {
    if value >= 128 {
      assert |Varint(value / 128)| >= 1;
      if most > 1 {
        VarintIsShort(value / 128, most - 1);
      } else {
        assert Capacity(1) == 128 * Capacity(0);
      }
    } else if most > 1 {
      VarintIsShort(0, most - 1);
    }
  }

  /** Every 32-bit number is read back from where it was written. */
  lemma VarintRoundTrip(s: Bytes, p: nat, value: nat)
    requires value < LIMIT_32 && Has(s, p, Varint(value))
    ensures GetVarint32(s, p) == Some(Number(value, p + |Varint(value)|))
  {
    Capacities();
    VarintFrom(s, p, 5, value);
  }

  lemma Varint64RoundTrip(s: Bytes, p: nat, value: nat)
    requires value < LIMIT_64 && Has(s, p, Varint(value))
    ensures GetVarint64(s, p) == Some(Number(value, p + |Varint(value)|))
  {
    Capacities();
    VarintFrom(s, p, 10, value);
  }

  // ------------------------------------------------------- fixed-width numbers

  function Fixed32(value: nat): Bytes
    requires value < LIMIT_32
  {
    var a := value / 256;
    var b := a / 256;
    [value % 256, a % 256, b % 256, b / 256]
  }

  function GetFixed32(s: Bytes, p: nat): (n: nat)
    requires p + 4 <= |s|
    ensures n < LIMIT_32
  {
    s[p] as int + 256 * (s[p + 1] as int) + 65536 * (s[p + 2] as int) + 16777216 * (s[p + 3] as int)
  }

  lemma Fixed32RoundTrip(s: Bytes, p: nat, value: nat)
    requires value < LIMIT_32 && Has(s, p, Fixed32(value))
    ensures GetFixed32(s, p) == value
  {
    var f := Fixed32(value);
    assert s[p + 0] == f[0] && s[p + 1] == f[1] && s[p + 2] == f[2] && s[p + 3] == f[3];
  }
}
