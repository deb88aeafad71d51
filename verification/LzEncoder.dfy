/** The encoder: greedy matches found through a hash table, written into a
    buffer sized for the worst case.

    The hash is any function of the four bytes, so nothing proved here depends
    on how candidates are chosen. */
module LzEncoder {
  import opened Keys
  import opened Entries
  import opened Encoding
  import opened LzFormat

  /** Room for the worst case, the varint length included. */
  function MaxCompressedSize(n: nat): nat {
    5 + 1 + n / 255 + 1 + n
  }

  // ------------------------------------------------------------------- sizes

  lemma {:induction false} LengthBytesSize(n: nat)
    ensures |LengthBytes(n)| == n / 255 + 1
  {
    if n >= 255 {
      LengthBytesSize(n - 255);
    }
  }

  lemma ContinuationSize(n: nat)
    ensures |Continuation(n)| == if n < 15 then 0 else (n - 15) / 255 + 1
  {
    if n >= 15 {
      LengthBytesSize(n - 15);
    }
  }

  function Continued(n: nat): nat {
    if n < 15 then 0 else (n - 15) / 255 + 1
  }

  /** Token, offset, literals and continued lengths. */
  function PieceSize(run: nat, length: nat): nat
    requires MIN_MATCH <= length
  {
    3 + run + Continued(run) + Continued(length - MIN_MATCH)
  }

  /** A sequence costs at most what it stands for, one byte in 255 aside. */
  lemma MatchPieceSize(run: Bytes, offset: nat, length: nat)
    requires offset <= MAX_OFFSET && MIN_MATCH <= length
    ensures |MatchPiece(run, offset, length)| == PieceSize(|run|, length)
    ensures |MatchPiece(run, offset, length)| <= |run| + length + (|run| + length) / 255
    ensures |run| + length <= 255 * |MatchPiece(run, offset, length)|
  {
    ContinuationSize(|run|);
    ContinuationSize(length - MIN_MATCH);
    assert |MatchPiece(run, offset, length)| == 3 + |run| + |Continuation(|run|)| + |Continuation(length - MIN_MATCH)|;
    MatchArithmetic(|run|, length, |Continuation(|run|)|, |Continuation(length - MIN_MATCH)|);
  }

  lemma MatchArithmetic(run: nat, length: nat, a: nat, b: nat)
    requires MIN_MATCH <= length
    requires a == if run < 15 then 0 else (run - 15) / 255 + 1
    requires b == if length < 19 then 0 else (length - 19) / 255 + 1
    ensures 3 + run + a + b <= run + length + (run + length) / 255
    ensures run + length <= 255 * (3 + run + a + b)
  {
    assert b <= length - MIN_MATCH;
    assert a <= 1 + (run + MIN_MATCH) / 255;
  }

  lemma LastPieceSize(run: Bytes)
    ensures |LastPiece(run)| <= |run| + |run| / 255 + 2
    ensures |run| <= 255 * |LastPiece(run)|
  {
    ContinuationSize(|run|);
  }

  // --------------------------------------------------------------- meaning

  /** Whatever follows it, `code` brings the decoder to `text`. */
  ghost predicate Encodes(code: Bytes, text: Bytes) {
    forall s :: code <= s ==> Reaches(s, |code|, text)
  }

  ghost predicate Reaches(s: Bytes, p: nat, text: Bytes) {
    ExpandFrom(s, 0, []) == ExpandFrom(s, p, text)
  }

  lemma {:induction false} MatchStep(s: Bytes, p: nat, text: Bytes, run: Bytes, offset: nat, length: nat)
    requires 0 < offset <= |text + run| && offset <= MAX_OFFSET && MIN_MATCH <= length
    requires Has(s, p, MatchPiece(run, offset, length))
    ensures ExpandFrom(s, p, text) ==
              ExpandFrom(s, p + |MatchPiece(run, offset, length)|, Copied(text + run, offset, length))
  {
    MatchPieceReads(s, p, run, offset, length);
  }

  /** Wherever `piece` lies at p, it takes the decoder from `text` to `next`. */
  ghost predicate Takes(p: nat, text: Bytes, piece: Bytes, next: Bytes) {
    forall s :: Has(s, p, piece) ==> ExpandFrom(s, p, text) == ExpandFrom(s, p + |piece|, next)
  }

  lemma EncodesMore(code: Bytes, text: Bytes, piece: Bytes, next: Bytes)
    requires Encodes(code, text) && Takes(|code|, text, piece, next)
    ensures Encodes(code + piece, next)
  {
    forall s | code + piece <= s ensures Reaches(s, |code + piece|, next) {
      assert code <= s && Reaches(s, |code|, text);
      assert Has(s, |code|, piece) by {
        assert forall i :: 0 <= i < |piece| ==> (code + piece)[|code| + i] == piece[i];
      }
    }
  }

  lemma {:induction false} PieceTakes(p: nat, text: Bytes, run: Bytes, offset: nat, length: nat)
    requires 0 < offset <= |text + run| && offset <= MAX_OFFSET && MIN_MATCH <= length
    ensures Takes(p, text, MatchPiece(run, offset, length), Copied(text + run, offset, length))
  {
    var piece, next := MatchPiece(run, offset, length), Copied(text + run, offset, length);
    forall s | Has(s, p, piece) ensures ExpandFrom(s, p, text) == ExpandFrom(s, p + |piece|, next) {
      MatchStep(s, p, text, run, offset, length);
    }
  }

  lemma {:induction false} EncodesMatch(code: Bytes, text: Bytes, run: Bytes, offset: nat, length: nat)
    requires Encodes(code, text) && 0 < offset <= |text + run| && offset <= MAX_OFFSET && MIN_MATCH <= length
    ensures Encodes(code + MatchPiece(run, offset, length), Copied(text + run, offset, length))
  {
    var piece, next := MatchPiece(run, offset, length), Copied(text + run, offset, length);
    PieceTakes(|code|, text, run, offset, length);
    EncodesMore(code, text, piece, next);
  }

  lemma {:induction false} EncodesLast(code: Bytes, text: Bytes, run: Bytes)
    requires Encodes(code, text)
    ensures Expand(code + LastPiece(run)) == Some(text + run)
  {
    var s := code + LastPiece(run);
    assert code <= s && Reaches(s, |code|, text);
    LastPieceReads(s, |code|, run);
  }

  /** The text at pos says again what it says at from, which may run into it. */
  ghost predicate Repeats(input: Bytes, from: nat, pos: nat, length: nat) {
    && from < pos && pos + length <= |input|
    && forall k {:trigger SameAt(input, from, pos, k)} :: 0 <= k < length ==> SameAt(input, from, pos, k)
  }

  ghost predicate SameAt(input: Bytes, from: nat, pos: nat, k: nat)
    requires from <= pos && pos + k < |input|
  {
    input[pos + k] == input[from + k]
  }

  lemma EmptyExpands()
    ensures Expand([0]) == Some([])
  {
    assert LastPiece([]) == [0];
    LastPieceReads([0], 0, []);
  }

  /** A match found in the text repeats it. */
  lemma MatchContinues(input: Bytes, from: nat, pos: nat, length: nat)
    requires Repeats(input, from, pos, length)
    ensures Copied(input[..pos], pos - from, length) == input[..pos + length]
  {
    var r, offset := input[..pos + length], pos - from;
    forall i | pos <= i < pos + length ensures r[i] == r[i - offset] {
      assert SameAt(input, from, pos, i - pos);
    }
    CopiedIs(r, input[..pos], offset, length);
  }

  // --------------------------------------------------------------- writing

  method PutLength(out: array<Byte>, start: nat, length: nat) returns (w: nat)
    requires start + |LengthBytes(length)| <= out.Length
    modifies out
    ensures w == start + |LengthBytes(length)| && out[..w] == old(out[..start]) + LengthBytes(length)
  {
    w := start;
    var left := length;
    while left >= 255
      invariant w + |LengthBytes(left)| == start + |LengthBytes(length)|
      invariant start <= w && out[..w] + LengthBytes(left) == old(out[..start]) + LengthBytes(length)
    {
      assert LengthBytes(left) == [255] + LengthBytes(left - 255);
      ghost var before := out[..w];
      out[w] := 255;
      w := w + 1;
      left := left - 255;
      assert out[..w] == before + [255];
    }
    ghost var before := out[..w];
    out[w] := left;
    w := w + 1;
    assert out[..w] == before + [left];
  }

  method PutBytes(out: array<Byte>, start: nat, bytes: Bytes) returns (w: nat)
    requires start + |bytes| <= out.Length
    modifies out
    ensures w == start + |bytes| && out[..w] == old(out[..start]) + bytes
  {
    forall i | 0 <= i < |bytes| {
      out[start + i] := bytes[i];
    }
    w := start + |bytes|;
  }

  lemma AppendThree(x: Bytes, a: Bytes, b: Bytes, c: Bytes)
    ensures x + a + b + c == x + (a + b + c)
  {
  }

  method PutContinuation(out: array<Byte>, start: nat, length: nat) returns (w: nat)
    requires start + |Continuation(length)| <= out.Length
    modifies out
    ensures w == start + |Continuation(length)| && out[..w] == old(out[..start]) + Continuation(length)
  {
    w := start;
    if length >= 15 {
      w := PutLength(out, w, length - 15);
    }
  }

  /** Token, continued length and literals. */
  method EmitRun(out: array<Byte>, start: nat, token: Byte, run: Bytes) returns (w: nat)
    requires start + 1 + |Continuation(|run|)| + |run| <= out.Length
    modifies out
    ensures w == start + 1 + |Continuation(|run|)| + |run|
    ensures out[..w] == old(out[..start]) + ([token] + Continuation(|run|) + run)
  {
    w := PutBytes(out, start, [token]);
    w := PutContinuation(out, w, |run|);
    w := PutBytes(out, w, run);
    AppendThree(old(out[..start]), [token], Continuation(|run|), run);
  }

  method EmitAssembled(out: array<Byte>, start: nat, token: Byte, run: Bytes, low: Byte, high: Byte, length: nat)
    returns (w: nat)
    requires MIN_MATCH <= length && start + |Assembled(token, run, low, high, length)| <= out.Length
    modifies out
    ensures w == start + |Assembled(token, run, low, high, length)|
    ensures out[..w] == old(out[..start]) + Assembled(token, run, low, high, length)
  {
    w := EmitRun(out, start, token, run);
    w := PutBytes(out, w, [low, high]);
    w := PutContinuation(out, w, length - MIN_MATCH);
    AppendThree(old(out[..start]), [token] + Continuation(|run|) + run, [low, high], Continuation(length - MIN_MATCH));
  }

  /** A length of zero marks the trailing literals, with no match. */
  ghost function Sequence(run: Bytes, length: nat, offset: nat): Bytes
    requires length != 0 ==> offset <= MAX_OFFSET && MIN_MATCH <= length
  {
    if length == 0 then LastPiece(run) else MatchPiece(run, offset, length)
  }

  method EmitSequence(out: array<Byte>, start: nat, run: Bytes, length: nat, offset: nat) returns (w: nat)
    requires length != 0 ==> offset <= MAX_OFFSET && MIN_MATCH <= length
    requires start + |Sequence(run, length, offset)| <= out.Length
    modifies out
    ensures w == start + |Sequence(run, length, offset)|
    ensures out[..w] == old(out[..start]) + Sequence(run, length, offset)
  {
    var nibble := Nibble(|run|);
    if length == 0 {
      w := EmitRun(out, start, nibble * 16, run);
    } else {
      var code := Nibble(length - MIN_MATCH);
      w := EmitAssembled(out, start, nibble * 16 + code, run, offset % 256, offset / 256, length);
    }
  }

  // --------------------------------------------------------------- matching

  /** Extends a match eight bytes at a time and then one, to its very end. */
  method ExtendMatch(input: Bytes, from: nat, pos: nat) returns (length: nat)
    requires Repeats(input, from, pos, MIN_MATCH)
    ensures MIN_MATCH <= length && Repeats(input, from, pos, length)
    ensures pos + length == |input| || input[from + length] != input[pos + length]
  {
    length := MIN_MATCH;
    while pos + length + 8 <= |input| && input[from + length..from + length + 8] ==
        input[pos + length..pos + length + 8]
      invariant MIN_MATCH <= length && Repeats(input, from, pos, length)
      decreases |input| - length
    {
      NextEight(input, from, pos, length);
      length := length + 8;
    }
    while pos + length < |input| && input[from + length] == input[pos + length]
      invariant MIN_MATCH <= length && Repeats(input, from, pos, length)
      decreases |input| - length
    {
      assert SameAt(input, from, pos, length);
      length := length + 1;
    }
  }

  lemma NextFour(input: Bytes, from: nat, pos: nat)
    requires from < pos && pos + MIN_MATCH <= |input|
    requires input[from..from + MIN_MATCH] == input[pos..pos + MIN_MATCH]
    ensures Repeats(input, from, pos, MIN_MATCH)
  {
    var a, b := input[from..from + MIN_MATCH], input[pos..pos + MIN_MATCH];
    forall k | 0 <= k < MIN_MATCH ensures SameAt(input, from, pos, k) {
      assert b[k] == a[k];
    }
  }

  lemma NextEight(input: Bytes, from: nat, pos: nat, length: nat)
    requires Repeats(input, from, pos, length) && pos + length + 8 <= |input|
    requires input[from + length..from + length + 8] == input[pos + length..pos + length + 8]
    ensures Repeats(input, from, pos, length + 8)
  {
    var a, b := input[from + length..from + length + 8], input[pos + length..pos + length + 8];
    forall k | 0 <= k < length + 8 ensures SameAt(input, from, pos, k) {
      if k >= length {
        assert b[k - length] == a[k - length];
      }
    }
  }

  /** The hash finds a slot for any bytes. */
  ghost predicate FindsSlot(hash: Bytes -> nat, slots: nat) {
    forall b {:trigger hash(b)} :: hash(b) < slots
  }

  function Slot(input: Bytes, pos: nat, hash: Bytes -> nat): nat
    requires pos + MIN_MATCH <= |input|
  {
    hash(input[pos..pos + MIN_MATCH])
  }

  /** A slot holds a position plus one, or zero: the bytes there are those at
      pos, and not too far back. */
  predicate Hits(input: Bytes, pos: nat, candidate: nat)
    requires candidate <= pos && pos + MIN_MATCH <= |input|
  {
    && candidate != 0 && pos - (candidate - 1) <= MAX_OFFSET
    && input[candidate - 1..candidate - 1 + MIN_MATCH] == input[pos..pos + MIN_MATCH]
  }

  /** Looks up the position last seen for the bytes at pos, records pos there,
      and says how long a match with it is.  There is none only if the slot was
      empty, too far back, or held other bytes. */
  method FindMatch(input: Bytes, pos: nat, hash: Bytes -> nat, table: array<nat>) returns (from: nat, length: nat)
    requires pos + MIN_MATCH <= |input| && FindsSlot(hash, table.Length)
    requires forall h :: 0 <= h < table.Length ==> table[h] <= pos
    modifies table
    ensures forall h :: 0 <= h < table.Length ==>
              table[h] == if h == Slot(input, pos, hash) then pos + 1 else old(table[h])
    ensures length != 0 <==> Hits(input, pos, old(table[Slot(input, pos, hash)]))
    ensures length != 0 ==>
              && from + 1 == old(table[Slot(input, pos, hash)])
              && MIN_MATCH <= length && Repeats(input, from, pos, length) && pos - from <= MAX_OFFSET
              && (pos + length == |input| || input[from + length] != input[pos + length])
  {
    var slot := Slot(input, pos, hash);
    var candidate := table[slot];
    table[slot] := pos + 1;
    from, length := 0, 0;
    if candidate == 0 {
      return;
    }
    from := candidate - 1;
    if pos - from > MAX_OFFSET || input[from..from + MIN_MATCH] != input[pos..pos + MIN_MATCH] {
      return;
    }
    NextFour(input, from, pos);
    length := ExtendMatch(input, from, pos);
  }

  // ---------------------------------------------------------------- the loop

  /** `code` stands for the first `done` bytes, within the size bounds. */
  ghost predicate Written(code: Bytes, input: Bytes, done: nat) {
    && done <= |input|
    && |code| <= done + done / 255 && done <= 255 * |code|
    && Encodes(code, input[..done])
  }

  lemma Room(done: nat, more: nat, w: nat, piece: nat)
    requires w <= done + done / 255 && done <= 255 * w
    requires piece <= more + more / 255 && more <= 255 * piece
    ensures w + piece <= done + more + (done + more) / 255
    ensures done + more <= 255 * (w + piece)
  {
  }

  lemma DivMonotone(a: nat, b: nat)
    requires a <= b
    ensures a / 255 <= b / 255
  {
  }

  /** Writes the literals since `done` and a match at pos, and steps past it. */
  method EmitFound(input: Bytes, done: nat, pos: nat, from: nat, length: nat, out: array<Byte>, start: nat)
    returns (w: nat)
    requires done <= pos && MIN_MATCH <= length && Repeats(input, from, pos, length) && pos - from <= MAX_OFFSET
    requires out.Length == MaxCompressedSize(|input|)
    requires start <= out.Length && Written(out[..start], input, done)
    modifies out
    ensures w <= out.Length && Written(out[..w], input, pos + length)
    ensures w == start + PieceSize(pos - done, length)
  {
    ghost var before, run, offset := out[..start], input[done..pos], pos - from;
    MatchPieceSize(run, offset, length);
    Room(done, pos - done + length, start, |MatchPiece(run, offset, length)|);
    DivMonotone(pos + length, |input|);
    w := EmitSequence(out, start, input[done..pos], length, pos - from);
    assert input[..done] + run == input[..pos];
    EncodesMatch(before, input[..done], run, offset, length);
    MatchContinues(input, from, pos, length);
  }

  /** Whatever is left is literals, in a sequence of its own. */
  method EmitRest(input: Bytes, done: nat, out: array<Byte>, start: nat) returns (w: nat)
    requires out.Length == MaxCompressedSize(|input|)
    requires start <= out.Length && Written(out[..start], input, done)
    modifies out
    ensures w <= |input| + |input| / 255 + 2 && |input| <= 255 * w
    ensures w <= out.Length && Expand(out[..w]) == Some(input)
    ensures w == start + |LastPiece(input[done..])|
  {
    ghost var before := out[..start];
    LastPieceSize(input[done..]);
    EncodesLast(before, input[..done], input[done..]);
    assert input[..done] + input[done..] == input;
    w := EmitSequence(out, start, input[done..], 0, 0);
  }

  /** One turn at pos: past a match, or one byte on. */
  method Advance(input: Bytes, out: array<Byte>, done: nat, pos: nat, from: nat, length: nat, start: nat)
    returns (next: nat, end: nat, w: nat)
    requires done <= pos < |input| && out.Length == MaxCompressedSize(|input|)
    requires start <= out.Length && Written(out[..start], input, done)
    requires length != 0 ==> MIN_MATCH <= length && Repeats(input, from, pos, length) && pos - from <= MAX_OFFSET
    modifies out
    ensures w <= out.Length && Written(out[..w], input, end)
    ensures if length == 0 then next == pos + 1 && end == done && w == start
            else next == end == pos + length && w == start + PieceSize(pos - done, length)
  {
    next, end, w := pos + 1, done, start;
    if length != 0 {
      w := EmitFound(input, done, pos, from, length, out, start);
      next, end := pos + length, pos + length;
    }
  }

  /** Puts the position before the next in the table. */
  method Remember(input: Bytes, hash: Bytes -> nat, table: array<nat>, next: nat)
    requires 0 < next <= |input| && FindsSlot(hash, table.Length)
    requires forall h :: 0 <= h < table.Length ==> table[h] <= next
    modifies table
    ensures forall h :: 0 <= h < table.Length ==> table[h] <= next
    ensures next - 1 + MIN_MATCH <= |input| ==> table[Slot(input, next - 1, hash)] == next
  {
    if next - 1 + MIN_MATCH <= |input| {
      table[Slot(input, next - 1, hash)] := next;
    }
  }

  // ------------------------------------------------------------ a run of one byte

  ghost predicate OneByte(input: Bytes) {
    forall i :: 0 <= i < |input| ==> input[i] == input[0]
  }

  lemma SameWindows(input: Bytes, p: nat, q: nat)
    requires OneByte(input) && p + MIN_MATCH <= |input| && q + MIN_MATCH <= |input|
    ensures input[p..p + MIN_MATCH] == input[q..q + MIN_MATCH]
  {
  }

  /** Where the loop is on such an input of n bytes: at its start, one byte on
      with the first position in the table, or past the one match. */
  ghost predicate RunTurn(n: nat, pos: nat, done: nat, w: nat, first: nat) {
    || (pos == 0 && done == 0 && w == 0 && first == 0)
    || (pos == 1 && done == 0 && w == 0 && first == 1)
    || (pos == done == n && w <= n / 255 + 5)
  }

  lemma RunMatchSize(n: nat, length: nat)
    requires MIN_MATCH <= length < n
    ensures PieceSize(1, length) <= n / 255 + 5
  {
  }

  /** From the first position there is no match yet; from the second there is
      one, and it goes to the end. */
  lemma RunMatch(input: Bytes, pos: nat, was: nat, from: nat, length: nat)
    requires OneByte(input) && |input| > MIN_MATCH && pos + MIN_MATCH <= |input| && was == pos <= 1
    requires length != 0 <==> Hits(input, pos, was)
    requires length != 0 ==> from + 1 == was && pos + length <= |input|
    requires length != 0 ==> pos + length == |input| || input[from + length] != input[pos + length]
    ensures length == if pos == 0 then 0 else |input| - 1
  {
    if pos == 1 {
      SecondHits(input);
      MatchToEnd(input, from, pos, length);
    }
  }

  lemma SecondHits(input: Bytes)
    requires OneByte(input) && |input| > MIN_MATCH
    ensures Hits(input, 1, 1)
  {
    SameWindows(input, 0, 1);
  }

  lemma MatchToEnd(input: Bytes, from: nat, pos: nat, length: nat)
    requires OneByte(input) && from < pos && pos + length <= |input|
    requires pos + length == |input| || input[from + length] != input[pos + length]
    ensures pos + length == |input|
  {
  }

  /** The body bytes of compress_block, for any hash and any table size.  They
      expand to the input, are never much longer than it, and a run of one byte
      takes one match. */
  method CompressBlock(input: Bytes, hash: Bytes -> nat, slots: nat) returns (out: array<Byte>, w: nat)
    requires 0 < slots
    ensures fresh(out) && w <= out.Length
    ensures Expand(out[..w]) == Some(input)
    ensures w <= |input| + |input| / 255 + 2
    ensures |input| <= 255 * w
    ensures OneByte(input) && |input| > MIN_MATCH ==> w <= |input| / 255 + 6
  {
    var n := |input|;
    out := new Byte[MaxCompressedSize(n)](_ => 0);
    w := 0;
    if n == 0 {
      EmptyExpands();
      out[0] := 0;
      w := 1;
      assert out[..1] == [0];
      return;
    }
    var done: nat;
    done, w := CompressMatches(input, b => hash(b) % slots, slots, out);
    w := EmitRest(input, done, out, w);
  }

  /** The loop: everything up to the last match. */
  method CompressMatches(input: Bytes, hash: Bytes -> nat, slots: nat, out: array<Byte>) returns (done: nat, w: nat)
    requires FindsSlot(hash, slots) && out.Length == MaxCompressedSize(|input|)
    modifies out
    ensures w <= out.Length && Written(out[..w], input, done)
    ensures OneByte(input) && |input| > MIN_MATCH ==> done == |input| && w <= |input| / 255 + 5
  {
    var n := |input|;
    var table := new nat[slots](_ => 0);
    var pos: nat := 0;
    done, w := 0, 0;
    var lastHashable := if n >= MIN_MATCH then n - MIN_MATCH + 1 else 0;
    while pos < lastHashable
      invariant done <= pos <= n && w <= out.Length && Written(out[..w], input, done)
      invariant InTable(hash, table[..], pos)
      invariant OneByte(input) && n > MIN_MATCH ==> RunTurn(n, pos, done, w, table[Slot(input, 0, hash)])
      decreases n - pos
    {
      ghost var before, was, size := table[..], done, w;
      var next, from, length := Look(input, hash, table, pos);
      ghost var after := table[..];
      next, done, w := Advance(input, out, done, pos, from, length, w);
      if OneByte(input) && n > MIN_MATCH {
        if before[Slot(input, 0, hash)] == pos <= 1 {
          RunFound(input, hash, before, after, pos, from, length);
        }
        RunStep(n, pos, was, size, before[Slot(input, 0, hash)], length, after[Slot(input, 0, hash)]);
      }
      pos := next;
    }
  }

  /** The table holds positions before this one. */
  ghost predicate InTable(hash: Bytes -> nat, table: seq<nat>, pos: nat) {
    FindsSlot(hash, |table|) && forall h :: 0 <= h < |table| ==> table[h] <= pos
  }

  /** What a look at pos found in the table, and left there. */
  ghost predicate Looked(input: Bytes, hash: Bytes -> nat, before: seq<nat>, after: seq<nat>, pos: nat, from: nat,
                         length: nat) {
    && pos + MIN_MATCH <= |input| && InTable(hash, before, pos) && FindsSlot(hash, |after|)
    && var was := before[Slot(input, pos, hash)];
    && (length != 0 <==> Hits(input, pos, was))
    && (length != 0 ==> from + 1 == was && pos + length <= |input|)
    && (length != 0 ==> pos + length == |input| || input[from + length] != input[pos + length])
    && (length == 0 ==> after[Slot(input, pos, hash)] == pos + 1)
  }

  /** The match at pos, if there is one, and the table for the next turn. */
  method Look(input: Bytes, hash: Bytes -> nat, table: array<nat>, pos: nat)
    returns (next: nat, from: nat, length: nat)
    requires pos + MIN_MATCH <= |input| && InTable(hash, table[..], pos)
    modifies table
    ensures length != 0 ==> MIN_MATCH <= length && Repeats(input, from, pos, length) && pos - from <= MAX_OFFSET
    ensures next == if length == 0 then pos + 1 else pos + length
    ensures InTable(hash, table[..], next) && Looked(input, hash, old(table[..]), table[..], pos, from, length)
    ensures next - 1 + MIN_MATCH <= |input| ==> table[Slot(input, next - 1, hash)] == next
  {
    from, length := FindMatch(input, pos, hash, table);
    next := pos + if length == 0 then 1 else length;
    if length != 0 {
      Remember(input, hash, table, next);
    }
  }

  /** On a run of one byte every window has the same slot. */
  lemma RunFound(input: Bytes, hash: Bytes -> nat, before: seq<nat>, after: seq<nat>, pos: nat, from: nat, length: nat)
    requires OneByte(input) && |input| > MIN_MATCH && Looked(input, hash, before, after, pos, from, length)
    requires before[Slot(input, 0, hash)] == pos <= 1
    ensures length == if pos == 0 then 0 else |input| - 1
    ensures pos == 0 ==> after[Slot(input, 0, hash)] == 1
  {
    SameWindows(input, 0, pos);
    RunMatch(input, pos, before[Slot(input, pos, hash)], from, length);
  }

  lemma RunStep(n: nat, pos: nat, done: nat, w: nat, was: nat, length: nat, first: nat)
    requires n > MIN_MATCH && pos + MIN_MATCH <= n && RunTurn(n, pos, done, w, was)
    requires was == pos <= 1 ==> length == (if pos == 0 then 0 else n - 1) && (pos == 0 ==> first == 1)
    ensures done <= pos && if length == 0 then RunTurn(n, pos + 1, done, w, first)
            else MIN_MATCH <= length && RunTurn(n, pos + length, pos + length, w + PieceSize(pos - done, length), first)
  {
    RunPlace(n, pos, done, w, was);
    RunTo(n, pos, length, first);
  }

  lemma RunPlace(n: nat, pos: nat, done: nat, w: nat, first: nat)
    requires RunTurn(n, pos, done, w, first) && pos + MIN_MATCH <= n
    ensures pos <= 1 && first == pos && done == 0 && w == 0
  {
  }

  lemma RunTo(n: nat, pos: nat, length: nat, first: nat)
    requires n > MIN_MATCH && pos <= 1 && length == (if pos == 0 then 0 else n - 1) && (pos == 0 ==> first == 1)
    ensures if length == 0 then RunTurn(n, pos + 1, 0, 0, first)
            else RunTurn(n, pos + length, pos + length, PieceSize(pos, length), first)
  {
    if pos == 1 {
      RunMatchSize(n, length);
    }
  }
}
