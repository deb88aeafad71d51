/** The format of a compressed block, and what one means.

    A block is a run of sequences: literals, then a match that repeats earlier
    output.  `Expand` reads one byte at a time and copies one byte at a time,
    including matches that overlap what they produce; the decoder is measured
    against it, and the encoder against the decoder. */
module LzFormat {
  import opened Keys
  import opened Entries
  import opened Encoding

  const MIN_MATCH: nat := 4
  const MAX_OFFSET: nat := 65535

  // ------------------------------------------------------------ what it means

  /** Appends n bytes, each the one `offset` behind it. */
  ghost function Copied(out: Bytes, offset: nat, n: nat): (r: Bytes)
    requires 0 < offset <= |out|
    ensures |r| == |out| + n
  {
    if n == 0 then out
    else var r := Copied(out, offset, n - 1); r + [r[|r| - offset]]
  }

  ghost predicate IsCopied(r: Bytes, out: Bytes, offset: nat, n: nat)
    requires 0 < offset <= |out|
  {
    && |r| == |out| + n
    && (forall i :: 0 <= i < |out| ==> r[i] == out[i])
    && (forall i :: |out| <= i < |r| ==> r[i] == r[i - offset])
  }

  lemma {:induction false} CopiedRepeats(out: Bytes, offset: nat, n: nat)
    requires 0 < offset <= |out|
    ensures IsCopied(Copied(out, offset, n), out, offset, n)
  {
    if n != 0 {
      CopiedRepeats(out, offset, n - 1);
    }
  }

  /** A match is determined by its repeating with the offset's period. */
  lemma {:induction false} CopiedIs(r: Bytes, out: Bytes, offset: nat, n: nat)
    requires 0 < offset <= |out|
    requires IsCopied(r, out, offset, n)
    ensures r == Copied(out, offset, n)
    decreases n
  {
    if n != 0 {
      CopiedIs(r[..|r| - 1], out, offset, n - 1);
      assert r == r[..|r| - 1] + [r[|r| - 1]];
    }
  }

  /** A length nibble of fifteen goes on: bytes of 255 and one below. */
  ghost function Extra(s: Bytes, p: nat, length: nat): (r: Option<Number>)
    ensures r.Some? ==> p < r.value.next <= |s| && length <= r.value.value
    decreases |s| - p
  {
    if p >= |s| then None
    else if s[p] == 255 then Extra(s, p + 1, length + 255)
    else Some(Number(length + s[p], p + 1))
  }

  /** A length: what the nibble says above `least`, and its continuation. */
  ghost function Length(s: Bytes, p: nat, nibble: nat, least: nat): (r: Option<Number>)
    requires p <= |s|
    ensures r.Some? ==> p <= r.value.next <= |s|
  {
    if nibble == 15 then Extra(s, p, least + 15) else Some(Number(least + nibble, p))
  }

  datatype Piece = Last(run: Bytes) | Match(run: Bytes, offset: nat, length: nat, next: nat)

  ghost function MatchAt(s: Bytes, q: nat, nibble: nat, run: Bytes): (r: Option<Piece>)
    requires q < |s|
    ensures r.Some? ==> r.value.Match? && r.value.run == run && q < r.value.next <= |s|
  {
    if |s| - q < 2 then None
    else
      match Length(s, q + 2, nibble, MIN_MATCH)
      case None => None
      case Some(m) => Some(Match(run, s[q] as int + 256 * (s[q + 1] as int), m.value, m.next))
  }

  /** The sequence that begins at p. */
  ghost function PieceAt(s: Bytes, p: nat): (r: Option<Piece>)
    ensures r.Some? && r.value.Match? ==> p < r.value.next <= |s|
  {
    if p >= |s| then None
    else
      match Length(s, p + 1, s[p] / 16, 0)
      case None => None
      case Some(n) =>
        if |s| - n.next < n.value then None
        else
          var q := n.next + n.value;
          if q == |s| then Some(Last(s[n.next..q])) else MatchAt(s, q, s[p] % 16, s[n.next..q])
  }

  ghost function ExpandFrom(s: Bytes, p: nat, out: Bytes): (r: Option<Bytes>)
    ensures r.Some? ==> out <= r.value
    decreases |s| - p
  {
    match PieceAt(s, p)
    case None => None
    case Some(Last(run)) => Some(out + run)
    case Some(Match(run, offset, length, next)) =>
      if offset == 0 || offset > |out + run| then None
      else
        CopiedRepeats(out + run, offset, length);
        ExpandFrom(s, next, Copied(out + run, offset, length))
  }

  /** The bytes a compressed body stands for, if it is well formed. */
  ghost function Expand(body: Bytes): Option<Bytes> {
    ExpandFrom(body, 0, [])
  }

  // ------------------------------------------------------------ what is written

  function LengthBytes(length: nat): Bytes {
    if length >= 255 then [255] + LengthBytes(length - 255) else [length]
  }

  function Nibble(length: nat): nat {
    if length >= 15 then 15 else length
  }

  function Continuation(length: nat): Bytes {
    if length >= 15 then LengthBytes(length - 15) else []
  }

  /** Token, literals and, unless it is the last, the match. */
  ghost function LastPiece(run: Bytes): Bytes {
    [Nibble(|run|) * 16] + Continuation(|run|) + run
  }

  ghost function Assembled(token: Byte, run: Bytes, low: Byte, high: Byte, length: nat): Bytes
    requires MIN_MATCH <= length
  {
    [token] + Continuation(|run|) + run + [low, high] + Continuation(length - MIN_MATCH)
  }

  ghost function MatchPiece(run: Bytes, offset: nat, length: nat): Bytes
    requires offset <= MAX_OFFSET && MIN_MATCH <= length
  {
    Assembled(Nibble(|run|) * 16 + Nibble(length - MIN_MATCH), run, offset % 256, offset / 256, length)
  }

  lemma {:induction false} ExtraReads(s: Bytes, p: nat, length: nat, more: nat)
    requires Has(s, p, LengthBytes(more))
    ensures Extra(s, p, length) == Some(Number(length + more, p + |LengthBytes(more)|))
    decreases more
  {
    assert s[p] == LengthBytes(more)[0];
    if more >= 255 {
      HasParts(s, p, [255], LengthBytes(more - 255));
      ExtraReads(s, p + 1, length + 255, more - 255);
    }
  }

  lemma LengthReads(s: Bytes, p: nat, least: nat, length: nat)
    requires Has(s, p, Continuation(length))
    ensures Length(s, p, Nibble(length), least) == Some(Number(least + length, p + |Continuation(length)|))
  {
    if length >= 15 {
      ExtraReads(s, p, least + 15, length - 15);
    }
  }

  lemma TokenSplits(a: nat, b: nat)
    requires b < 16
    ensures (a * 16 + b) / 16 == a && (a * 16 + b) % 16 == b
  {
  }

  lemma RunReads(s: Bytes, p: nat, run: Bytes, token: nat)
    requires p < |s| && s[p] == token && token / 16 == Nibble(|run|)
    requires Has(s, p + 1, Continuation(|run|)) && Has(s, p + 1 + |Continuation(|run|)|, run)
    ensures var q := p + 1 + |Continuation(|run|)| + |run|;
            PieceAt(s, p) == if q == |s| then Some(Last(run)) else MatchAt(s, q, token % 16, run)
  {
    LengthReads(s, p + 1, 0, |run|);
    HasSlice(s, p + 1 + |Continuation(|run|)|, run);
  }

  lemma MatchAtReads(s: Bytes, q: nat, run: Bytes, low: Byte, high: Byte, length: nat)
    requires MIN_MATCH <= length
    requires Has(s, q, [low, high]) && Has(s, q + 2, Continuation(length - MIN_MATCH))
    ensures MatchAt(s, q, Nibble(length - MIN_MATCH), run) ==
              Some(Match(run, low as int + 256 * (high as int), length, q + 2 + |Continuation(length - MIN_MATCH)|))
  {
    assert s[q] == [low, high][0] && s[q + 1] == [low, high][1];
    LengthReads(s, q + 2, MIN_MATCH, length - MIN_MATCH);
  }

  lemma AssembledParts(s: Bytes, p: nat, token: Byte, run: Bytes, low: Byte, high: Byte, length: nat)
    requires MIN_MATCH <= length && Has(s, p, Assembled(token, run, low, high, length))
    ensures Has(s, p, [token]) && Has(s, p + 1, Continuation(|run|)) && Has(s, p + 1 + |Continuation(|run|)|, run)
    ensures Has(s, p + 1 + |Continuation(|run|)| + |run|, [low, high])
    ensures Has(s, p + 1 + |Continuation(|run|)| + |run| + 2, Continuation(length - MIN_MATCH))
    ensures |Assembled(token, run, low, high, length)| ==
        3 + |Continuation(|run|)| + |run| + |Continuation(length - MIN_MATCH)|
  {
    HasFive(s, p, [token], Continuation(|run|), run, [low, high], Continuation(length - MIN_MATCH));
  }

  lemma PartsRead(s: Bytes, p: nat, token: Byte, run: Bytes, low: Byte, high: Byte, length: nat)
    requires MIN_MATCH <= length && token / 16 == Nibble(|run|) && token % 16 == Nibble(length - MIN_MATCH)
    requires p < |s| && s[p] == token && Has(s, p + 1, Continuation(|run|))
    requires Has(s, p + 1 + |Continuation(|run|)|, run)
    requires Has(s, p + 1 + |Continuation(|run|)| + |run|, [low, high])
    requires Has(s, p + 1 + |Continuation(|run|)| + |run| + 2, Continuation(length - MIN_MATCH))
    ensures PieceAt(s, p) == Some(Match(run, low as int + 256 * (high as int), length,
                                        p + 3 + |Continuation(|run|)| + |run| + |Continuation(length - MIN_MATCH)|))
  {
    RunReads(s, p, run, token);
    MatchAtReads(s, p + 1 + |Continuation(|run|)| + |run|, run, low, high, length);
  }

  lemma AssembledReads(s: Bytes, p: nat, token: Byte, run: Bytes, low: Byte, high: Byte, length: nat)
    requires MIN_MATCH <= length && Has(s, p, Assembled(token, run, low, high, length))
    requires token / 16 == Nibble(|run|) && token % 16 == Nibble(length - MIN_MATCH)
    ensures PieceAt(s, p) == Some(Match(run, low as int + 256 * (high as int), length,
                                        p + |Assembled(token, run, low, high, length)|))
  {
    AssembledParts(s, p, token, run, low, high, length);
    assert s[p] == [token][0];
    PartsRead(s, p, token, run, low, high, length);
  }

  lemma MatchPieceReads(s: Bytes, p: nat, run: Bytes, offset: nat, length: nat)
    requires offset <= MAX_OFFSET && MIN_MATCH <= length
    requires Has(s, p, MatchPiece(run, offset, length))
    ensures PieceAt(s, p) == Some(Match(run, offset, length, p + |MatchPiece(run, offset, length)|))
  {
    TokenSplits(Nibble(|run|), Nibble(length - MIN_MATCH));
    AssembledReads(s, p, Nibble(|run|) * 16 + Nibble(length - MIN_MATCH), run, offset % 256, offset / 256, length);
  }

  lemma LastPieceParts(s: Bytes, p: nat, token: Byte, a: Bytes, run: Bytes)
    requires Has(s, p, [token] + a + run)
    ensures p < |s| && s[p] == token && Has(s, p + 1, a) && Has(s, p + 1 + |a|, run)
  {
    HasParts(s, p, [token] + a, run);
    HasParts(s, p, [token], a);
    assert s[p] == [token][0];
  }

  lemma LastPieceReads(s: Bytes, p: nat, run: Bytes)
    requires Has(s, p, LastPiece(run)) && p + |LastPiece(run)| == |s|
    ensures PieceAt(s, p) == Some(Last(run))
  {
    LastPieceParts(s, p, Nibble(|run|) * 16, Continuation(|run|), run);
    TokenSplits(Nibble(|run|), 0);
    RunReads(s, p, run, Nibble(|run|) * 16);
  }
}
