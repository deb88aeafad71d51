/** A compressed block: the length as a varint, then the body. */
module LzBlock {
  import opened Keys
  import opened Entries
  import opened Encoding
  import opened LzFormat
  import LzEncoder
  import LzDecoder

  // ------------------------------------------- 255 bytes of output per byte in

  lemma {:induction false} ExtraWorth(s: Bytes, p: nat, length: nat)
    requires Extra(s, p, length).Some?
    ensures Extra(s, p, length).value.value <= length + 255 * (Extra(s, p, length).value.next - p)
    decreases |s| - p
  {
    if s[p] == 255 {
      ExtraWorth(s, p + 1, length + 255);
    }
  }

  lemma LengthWorth(s: Bytes, p: nat, nibble: nat, least: nat)
    requires p <= |s| && nibble <= 15 && Length(s, p, nibble, least).Some?
    ensures var l := Length(s, p, nibble, least).value; l.value <= least + 15 + 255 * (l.next - p)
  {
    if nibble == 15 {
      ExtraWorth(s, p, least + 15);
    }
  }

  /** No sequence delivers more than 255 bytes for each byte it takes up. */
  lemma PieceWorth(s: Bytes, p: nat)
    requires PieceAt(s, p).Some?
    ensures match PieceAt(s, p).value
            case Last(run) => |run| <= 255 * (|s| - p)
            case Match(run, _, length, next) => |run| + length <= 255 * (next - p)
  {
    LengthWorth(s, p + 1, s[p] / 16, 0);
    var n := Length(s, p + 1, s[p] / 16, 0).value;
    var q := n.next + n.value;
    if q != |s| {
      LengthWorth(s, q + 2, s[p] % 16, MIN_MATCH);
    }
  }

  lemma {:induction false} ExpandWorth(s: Bytes, p: nat, out: Bytes)
    requires p <= |s| && ExpandFrom(s, p, out).Some?
    ensures |ExpandFrom(s, p, out).value| <= |out| + 255 * (|s| - p)
    decreases |s| - p
  {
    PieceWorth(s, p);
    match PieceAt(s, p).value
    case Last(_) =>
    case Match(run, offset, length, next) =>
      ExpandWorth(s, next, Copied(out + run, offset, length));
  }

  // ------------------------------------------------------------------ blocks

  /** What a block stands for. */
  ghost function Unpacked(block: Bytes): Option<Bytes> {
    match GetVarint32(block, 0)
    case None => None
    case Some(n) => if LzDecoder.Delivers(Expand(block[n.next..]), n.value) then Expand(block[n.next..]) else None
  }

  /** The length check turns no well-formed block away. */
  method DecompressBlock(block: Bytes) returns (r: Option<Bytes>)
    ensures r == Unpacked(block)
  {
    var declared := GetVarint32(block, 0);
    if declared.None? {
      return None;
    }
    var total, body := declared.value.value, block[declared.value.next..];
    if total > 255 * |body| {
      if Expand(body).Some? {
        ExpandWorth(body, 0, []);
      }
      return None;
    }
    var out := new Byte[total](_ => 0);
    var ok := LzDecoder.DecompressInto(body, out);
    if ok {
      r := Some(out[..]);
    } else {
      r := None;
    }
  }

  method CompressBlock(input: Bytes, hash: Bytes -> nat, slots: nat) returns (block: Bytes)
    requires |input| < LIMIT_32 && 0 < slots
    ensures Unpacked(block) == Some(input)
    ensures |block| <= |Varint(|input|)| + |input| + |input| / 255 + 2
  {
    var out, w := LzEncoder.CompressBlock(input, hash, slots);
    var length := Varint(|input|);
    block := length + out[..w];
    assert block[|length|..] == out[..w];
    VarintRoundTrip(block, 0, |input|);
  }

  /** Decompressing what was compressed gives it back, whatever the hash. */
  method RoundTrip(input: Bytes, hash: Bytes -> nat, slots: nat) returns (back: Option<Bytes>)
    requires |input| < LIMIT_32 && 0 < slots
    ensures back == Some(input)
  {
    var block := CompressBlock(input, hash, slots);
    back := DecompressBlock(block);
  }
}
