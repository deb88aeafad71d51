/** The decoder: bounds checked once per copy, and copies that spill past
    their end into room that is written again later.

    The output is an array of exactly the declared length and the input a byte
    string, so every access the code makes is shown to be inside them. */
module LzDecoder {
  import opened Keys
  import opened Entries
  import opened Encoding
  import opened LzFormat

  const STEP: nat := 8

  // ------------------------------------------------------------------ copies

  /** wild_copy from the input: eight bytes at a time, at least once. */
  method WildCopyFrom(out: array<Byte>, to: nat, input: Bytes, from: nat, n: nat)
    requires to + n + STEP <= out.Length && from + n + STEP <= |input|
    modifies out
    ensures out[..to + n] == old(out[..to]) + input[from..from + n]
  {
    var k := 0;
    while true
      invariant k < n + STEP && (k == 0 || k < n)
      invariant forall i :: 0 <= i < to ==> out[i] == old(out[i])
      invariant forall i :: to <= i < to + k ==> out[i] == input[from + i - to]
      decreases n + STEP - k
    {
      forall i | 0 <= i < STEP {
        out[to + k + i] := input[from + k + i];
      }
      k := k + STEP;
      if k >= n {
        break;
      }
    }
  }

  method CopyFrom(out: array<Byte>, to: nat, input: Bytes, from: nat, n: nat)
    requires to + n <= out.Length && from + n <= |input|
    modifies out
    ensures out[..to + n] == old(out[..to]) + input[from..from + n]
  {
    forall i | 0 <= i < n {
      out[to + i] := input[from + i];
    }
  }

  /** One step of wild_copy within the output. */
  method CopyStep(out: array<Byte>, to: nat, offset: nat)
    requires STEP <= offset <= to && to + STEP <= out.Length
    modifies out
    ensures forall i :: 0 <= i < to ==> out[i] == old(out[i])
    ensures forall i :: to <= i < to + STEP ==> out[i] == out[i - offset]
  {
    forall i | 0 <= i < STEP {
      out[to + i] := out[to + i - offset];
    }
  }

  /** wild_copy within the output.  Each step reads only bytes already written,
      because the source is a whole step behind. */
  method WildCopyWithin(out: array<Byte>, to: nat, offset: nat, n: nat)
    requires STEP <= offset <= to && to + n + STEP <= out.Length
    modifies out
    ensures out[..to + n] == Copied(old(out[..to]), offset, n)
  {
    var k := 0;
    while true
      invariant k < n + STEP && (k == 0 || k < n)
      invariant forall i :: 0 <= i < to ==> out[i] == old(out[i])
      invariant forall i :: to <= i < to + k ==> out[i] == out[i - offset]
      decreases n + STEP - k
    {
      CopyStep(out, to + k, offset);
      k := k + STEP;
      if k >= n {
        break;
      }
    }
    CopiedIs(out[..to + n], old(out[..to]), offset, n);
  }

  /** memcpy, whose ranges must not overlap. */
  method CopyWithin(out: array<Byte>, to: nat, offset: nat, n: nat)
    requires 0 < offset <= to && n <= offset && to + n <= out.Length
    modifies out
    ensures out[..to + n] == Copied(old(out[..to]), offset, n)
  {
    forall i | 0 <= i < n {
      out[to + i] := out[to + i - offset];
    }
    CopiedIs(out[..to + n], old(out[..to]), offset, n);
  }

  method CopyBytes(out: array<Byte>, to: nat, offset: nat, n: nat)
    requires 0 < offset <= to && to + n <= out.Length
    modifies out
    ensures out[..to + n] == Copied(old(out[..to]), offset, n)
  {
    for k := 0 to n
      invariant forall i :: 0 <= i < to ==> out[i] == old(out[i])
      invariant forall i :: to <= i < to + k ==> out[i] == out[i - offset]
    {
      out[to + k] := out[to + k - offset];
    }
    CopiedIs(out[..to + n], old(out[..to]), offset, n);
  }

  // ----------------------------------------------------------------- lengths

  /** Stops as soon as the length passes the room, which a longer reading could
      only pass further. */
  method ReadExtra(input: Bytes, start: nat, least: nat, room: nat) returns (ok: bool, length: nat, p: nat)
    requires start <= |input|
    ensures ok ==> Extra(input, start, least) == Some(Number(length, p)) && length <= room
    ensures !ok ==> Extra(input, start, least).None? || Extra(input, start, least).value.value > room
  {
    ok, length, p := false, least, start;
    while true
      invariant p <= |input| && !ok
      invariant Extra(input, start, least) == Extra(input, p, length)
      decreases |input| - p
    {
      if p >= |input| {
        return;
      }
      var byte := input[p];
      p := p + 1;
      length := length + byte;
      if length > room {
        return;
      }
      if byte != 255 {
        ok := true;
        return;
      }
    }
  }

  method ReadLength(input: Bytes, start: nat, nibble: nat, least: nat, room: nat)
    returns (ok: bool, length: nat, p: nat)
    requires start <= |input|
    ensures ok ==> Length(input, start, nibble, least) == Some(Number(length, p)) && length <= room
    ensures !ok ==> Length(input, start, nibble, least).None? || Length(input, start, nibble, least).value.value > room
  {
    ok, length, p := true, least + nibble, start;
    if nibble == 15 {
      ok, length, p := ReadExtra(input, start, length, room);
    }
    if length > room {
      ok := false;
    }
  }

  // ----------------------------------------------------------------- the loop

  /** The literals of the sequence at p. */
  method TakeLiterals(input: Bytes, p: nat, out: array<Byte>, produced: nat) returns (ok: bool, q: nat, n: nat)
    requires p < |input| && produced <= out.Length
    modifies out
    ensures ok ==> n <= q <= |input| && p < q - n && Length(input, p + 1, input[p] / 16, 0) == Some(Number(n, q - n))
    ensures ok ==> produced + n <= out.Length && out[..produced + n] == old(out[..produced]) + input[q - n..q]
    ensures !ok ==> match Length(input, p + 1, input[p] / 16, 0)
                    case None => true
                    case Some(l) => |input| - l.next < l.value || produced + l.value > out.Length
  {
    var room := out.Length - produced;
    ok, n, q := ReadLength(input, p + 1, input[p] / 16, 0, room);
    if !ok {
      return;
    }
    if |input| - q < n {
      ok := false;
      return;
    }
    if |input| - q >= n + STEP && room >= n + STEP {
      WildCopyFrom(out, produced, input, q, n);
    } else {
      CopyFrom(out, produced, input, q, n);
    }
    q := q + n;
  }

  /** The match that follows literals ending at q. */
  method TakeMatch(input: Bytes, q: nat, nibble: nat, ghost run: Bytes, out: array<Byte>, produced: nat)
    returns (ok: bool, offset: nat, length: nat, next: nat)
    requires q < |input| && produced <= out.Length
    modifies out
    ensures ok ==> MatchAt(input, q, nibble, run) == Some(Match(run, offset, length, next))
    ensures ok ==> 0 < offset <= produced && produced + length <= out.Length
    ensures ok ==> out[..produced + length] == Copied(old(out[..produced]), offset, length)
    ensures !ok ==> match MatchAt(input, q, nibble, run)
                    case None => true
                    case Some(m) => m.offset == 0 || m.offset > produced || produced + m.length > out.Length
  {
    ok, offset, length, next := false, 0, 0, q;
    if |input| - q < 2 {
      return;
    }
    offset := input[q] as int + 256 * (input[q + 1] as int);
    if offset == 0 || offset > produced {
      return;
    }
    var room := out.Length - produced;
    ok, length, next := ReadLength(input, q + 2, nibble, MIN_MATCH, room);
    if !ok {
      return;
    }
    if offset >= STEP && room >= length + STEP {
      WildCopyWithin(out, produced, offset, length);
    } else if offset >= length {
      CopyWithin(out, produced, offset, length);
    } else {
      CopyBytes(out, produced, offset, length);
    }
  }

  ghost predicate Delivers(r: Option<Bytes>, total: nat) {
    r.Some? && |r.value| == total
  }

  lemma LiteralsTaken(s: Bytes, p: nat, q: nat, n: nat)
    requires p < |s| && n <= q <= |s| && Length(s, p + 1, s[p] / 16, 0) == Some(Number(n, q - n))
    ensures PieceAt(s, p) == if q == |s| then Some(Last(s[q - n..q])) else MatchAt(s, q, s[p] % 16, s[q - n..q])
  {
  }

  lemma LiteralsRefused(s: Bytes, p: nat, out: Bytes, total: nat)
    requires p < |s|
    requires match Length(s, p + 1, s[p] / 16, 0)
             case None => true
             case Some(l) => |s| - l.next < l.value || |out| + l.value > total
    ensures !Delivers(ExpandFrom(s, p, out), total)
  {
  }

  lemma MatchRefused(s: Bytes, p: nat, out: Bytes, run: Bytes, q: nat, total: nat)
    requires p < |s| && q < |s| && PieceAt(s, p) == MatchAt(s, q, s[p] % 16, run)
    requires match MatchAt(s, q, s[p] % 16, run)
             case None => true
             case Some(m) => m.offset == 0 || m.offset > |out + run| || |out + run| + m.length > total
    ensures !Delivers(ExpandFrom(s, p, out), total)
  {
  }

  lemma SequenceTaken(s: Bytes, p: nat, out: Bytes, run: Bytes, middle: Bytes, offset: nat, length: nat, next: nat)
    requires PieceAt(s, p) == Some(Match(run, offset, length, next)) && 0 < offset <= |middle| && middle == out + run
    ensures ExpandFrom(s, p, out) == ExpandFrom(s, next, Copied(middle, offset, length))
  {
  }

  datatype Turn = Refused | Done | More(p: nat, produced: nat)

  /** The second half of a turn, after literals that bring the output to n bytes. */
  method FinishSequence(input: Bytes, p: nat, q: nat, ghost before: Bytes, ghost run: Bytes, out: array<Byte>, n: nat)
    returns (turn: Turn)
    requires p < q < |input| && PieceAt(input, p) == MatchAt(input, q, input[p] % 16, run)
    requires n <= out.Length && out[..n] == before + run
    modifies out
    ensures !turn.Done?
    ensures turn.Refused? ==> !Delivers(ExpandFrom(input, p, before), out.Length)
    ensures turn.More? ==> p < turn.p <= |input| && turn.produced <= out.Length
    ensures turn.More? ==> ExpandFrom(input, p, before) == ExpandFrom(input, turn.p, out[..turn.produced])
  {
    ghost var middle := out[..n];
    var matched, offset, length, next := TakeMatch(input, q, input[p] % 16, run, out, n);
    if !matched {
      MatchRefused(input, p, before, run, q, out.Length);
      return Refused;
    }
    SequenceTaken(input, p, before, run, middle, offset, length, next);
    return More(next, n + length);
  }

  /** One turn of the decoder's loop. */
  method TakeSequence(input: Bytes, p: nat, out: array<Byte>, produced: nat) returns (turn: Turn)
    requires p <= |input| && produced <= out.Length
    modifies out
    ensures turn.Refused? ==> !Delivers(ExpandFrom(input, p, old(out[..produced])), out.Length)
    ensures turn.Done? ==> ExpandFrom(input, p, old(out[..produced])) == Some(out[..])
    ensures turn.More? ==> p < turn.p <= |input| && turn.produced <= out.Length
    ensures turn.More? ==>
              ExpandFrom(input, p, old(out[..produced])) == ExpandFrom(input, turn.p, out[..turn.produced])
  {
    if p >= |input| {
      return Refused;
    }
    ghost var before := out[..produced];
    var taken, q, n := TakeLiterals(input, p, out, produced);
    if !taken {
      LiteralsRefused(input, p, before, out.Length);
      return Refused;
    }
    LiteralsTaken(input, p, q, n);
    if q == |input| {
      if produced + n != out.Length {
        return Refused;
      }
      assert out[..] == out[..produced + n];
      return Done;
    }
    turn := FinishSequence(input, p, q, before, input[q - n..q], out, produced + n);
  }

  /** For any input and any declared length: accepts exactly the bodies that
      expand to that many bytes, and delivers those bytes. */
  method DecompressInto(input: Bytes, out: array<Byte>) returns (ok: bool)
    modifies out
    ensures ok <==> Delivers(Expand(input), out.Length)
    ensures ok ==> out[..] == Expand(input).value
  {
    var turn := More(0, 0);
    while turn.More?
      invariant turn.More? ==> turn.p <= |input| && turn.produced <= out.Length
      invariant turn.More? ==> Expand(input) == ExpandFrom(input, turn.p, out[..turn.produced])
      invariant turn.Refused? ==> !Delivers(Expand(input), out.Length)
      invariant turn.Done? ==> Expand(input) == Some(out[..])
      decreases if turn.More? then 1 + |input| - turn.p else 0
    {
      turn := TakeSequence(input, turn.p, out, turn.produced);
    }
    return turn.Done?;
  }
}
