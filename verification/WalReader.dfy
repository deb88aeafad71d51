/** LogReader: a block at a time, a record at a time, and on a failure a search
    for anything readable after it. */
module WalReader {
  import opened Keys
  import opened Entries
  import opened WalFormat
  import opened WalProofs
  import opened WalDamage

  // ------------------------------------------------------- a block of a file

  /** The block that begins at s. */
  ghost function BlockAt(file: Bytes, s: nat): Bytes
    requires s <= |file|
  {
    file[s..BlockEnd(file, s)]
  }

  ghost function Shifted(r: Physical, n: nat): Physical {
    match r
    case Record(kind, payload, next) => Record(kind, payload, next + n)
    case Failed(at, resume) => Failed(at + n, resume + n)
    case Over => Over
  }

  lemma ZeroedShift(file: Bytes, s: nat, o: nat)
    requires s % BLOCK == 0 && s <= |file| && o + HEADER <= |BlockAt(file, s)|
    ensures s + o + HEADER <= |file| && Zeroed(BlockAt(file, s), o) == Zeroed(file, s + o)
    ensures LengthAt(BlockAt(file, s), o) == LengthAt(file, s + o)
  {
    var block := BlockAt(file, s);
    assert forall i :: 0 <= i < |block| ==> block[i] == file[s + i];
    assert Zeroed(block, o) ==> forall i :: s + o <= i < s + o + HEADER ==> block[i - s] == file[i];
    assert Zeroed(file, s + o) ==> forall i :: o <= i < o + HEADER ==> block[i] == file[s + i];
  }

  lemma SliceShift(file: Bytes, s: nat, e: nat, a: nat, b: nat)
    requires s <= e <= |file| && a <= b <= e - s
    ensures file[s..e][a..b] == file[s + a..s + b]
  {
    var t, u, v := file[s..e], file[s..e][a..b], file[s + a..s + b];
    forall i | 0 <= i < b - a ensures u[i] == v[i] {
      assert u[i] == t[a + i] == file[s + (a + i)];
    }
  }

  lemma SumShift(sum: Sum, file: Bytes, s: nat, o: nat)
    requires s % BLOCK == 0 && s <= |file| && o + HEADER <= |BlockAt(file, s)|
    requires o + HEADER + LengthAt(BlockAt(file, s), o) <= |BlockAt(file, s)|
    ensures s + o + HEADER + LengthAt(file, s + o) <= |file|
    ensures SumMatches(sum, BlockAt(file, s), o) == SumMatches(sum, file, s + o)
    ensures BlockAt(file, s)[o + 6] == file[s + o + 6]
    ensures BlockAt(file, s)[o + HEADER..o + HEADER + LengthAt(BlockAt(file, s), o)] ==
              file[s + o + HEADER..s + o + HEADER + LengthAt(file, s + o)]
  {
    ZeroedShift(file, s, o);
    var n := LengthAt(file, s + o);
    SliceShift(file, s, BlockEnd(file, s), o, o + 4);
    SliceShift(file, s, BlockEnd(file, s), o + HEADER, o + HEADER + n);
  }

  lemma EndShift(file: Bytes, s: nat, o: nat)
    requires s % BLOCK == 0 && s <= |file| && o <= |BlockAt(file, s)| && o < BLOCK
    ensures BlockEnd(file, s + o) == s + |BlockAt(file, s)| && BlockEnd(BlockAt(file, s), o) == |BlockAt(file, s)|
  {
    assert BlockStart(s + o) == s && BlockStart(o) == 0;
  }

  /** Reading a header in the block is reading it in the file. */
  lemma HeaderShift(sum: Sum, file: Bytes, s: nat, o: nat)
    requires s % BLOCK == 0 && s <= |file| && o <= |BlockAt(file, s)| && o < BLOCK
    ensures HeaderAt(sum, file, s + o) == Shifted(HeaderAt(sum, BlockAt(file, s), o), s)
  {
    EndShift(file, s, o);
    if o + HEADER <= |BlockAt(file, s)| {
      ZeroedShift(file, s, o);
      if o + HEADER + LengthAt(BlockAt(file, s), o) <= |BlockAt(file, s)| {
        SumShift(sum, file, s, o);
      }
    }
  }

  lemma {:induction false} ChainShift(sum: Sum, file: Bytes, s: nat, o: nat)
    requires s % BLOCK == 0 && s <= |file| && o <= |BlockAt(file, s)|
    ensures ChainTo(sum, BlockAt(file, s), o, |BlockAt(file, s)|) == ChainTo(sum, file, s + o, s + |BlockAt(file, s)|)
    decreases |file| - o
  {
    var block := BlockAt(file, s);
    if o + HEADER <= |block| {
      ZeroedShift(file, s, o);
      HeaderShift(sum, file, s, o);
      var r := HeaderAt(sum, block, o);
      if r.Record? {
        ChainShift(sum, file, s, r.next);
      }
    }
    ZerosShift(file, s, o);
  }

  lemma ZerosShift(file: Bytes, s: nat, o: nat)
    requires s % BLOCK == 0 && s <= |file| && o <= |BlockAt(file, s)|
    ensures ZerosTo(BlockAt(file, s), o, |BlockAt(file, s)|) == ZerosTo(file, s + o, s + |BlockAt(file, s)|)
  {
    var block := BlockAt(file, s);
    assert ZerosTo(block, o, |block|) ==> forall i :: s + o <= i < s + |block| ==> block[i - s] == file[i];
    assert ZerosTo(file, s + o, s + |block|) ==> forall i :: o <= i < |block| ==> block[i] == file[s + i];
  }

  // --------------------------------------------------------------- the search

  /** parse_header and verifies: a whole record that carries its checksum. */
  method Verifies(sum: Sum, block: Bytes, o: nat, length: nat) returns (ok: bool)
    requires |block| <= BLOCK && o + HEADER + length <= |block| && length == LengthAt(block, o)
    ensures ok == VerifiesAt(sum, block, o)
  {
    var kind := block[o + 6];
    ok := block[o..o + 4] == sum([kind] + block[o + HEADER..o + HEADER + length]) && Known(kind);
    assert BlockEnd(block, o) == |block|;
    if ok {
      assert !Zeroed(block, o) by {
        assert block[o + 6] != 0;
      }
    }
  }

  /** Records back to back until the block ends, and at least one. */
  method VerifiesToBlockEnd(sum: Sum, block: Bytes, start: nat) returns (ok: bool)
    requires |block| <= BLOCK
    ensures ok == ChainFrom(sum, block, start, |block|)
  {
    var offset, any := start, false;
    while offset + HEADER <= |block|
      invariant start <= offset && any == (offset != start)
      invariant ChainTo(sum, block, start, |block|) == ChainTo(sum, block, offset, |block|)
      invariant any ==> start + HEADER <= |block| && !Zeroed(block, start)
      decreases |block| - offset
    {
      if Zeroed(block, offset) {
        break;
      }
      var length := LengthAt(block, offset);
      assert BlockEnd(block, offset) == |block|;
      if offset + HEADER + length > |block| {
        return false;
      }
      var good := Verifies(sum, block, offset, length);
      if !good {
        return false;
      }
      any := true;
      offset := offset + HEADER + length;
    }
    var i := offset;
    while i < |block|
      invariant offset <= i && (i <= |block| || i == offset)
      invariant forall k :: offset <= k < i && k < |block| ==> block[k] == 0
    {
      if block[i] != 0 {
        return false;
      }
      i := i + 1;
    }
    return any;
  }

  /** Walks by the length fields, looking past zeroed spans byte by byte. */
  method WalkBlock(sum: Sum, block: Bytes, walkFrom: nat) returns (found: bool)
    requires |block| <= BLOCK
    ensures walkFrom + HEADER <= |block| && VerifiesAt(sum, block, walkFrom) ==> found
    ensures found ==> exists q :: walkFrom <= q && VerifiesAt(sum, block, q)
  {
    var walk := walkFrom;
    while walk + HEADER <= |block|
      invariant walkFrom <= walk
      invariant walk != walkFrom ==> !VerifiesAt(sum, block, walkFrom)
      decreases |block| - walk
    {
      assert BlockEnd(block, walk) == |block|;
      if Zeroed(block, walk) {
        walk := walk + 1;
        continue;
      }
      var length := LengthAt(block, walk);
      if walk + HEADER + length > |block| {
        break;
      }
      var good := Verifies(sum, block, walk, length);
      if good {
        return true;
      }
      walk := walk + HEADER + length;
    }
    return false;
  }

  /** Tries every byte offset, accepting only a chain to the block's end. */
  method ScanBlock(sum: Sum, block: Bytes, scanFrom: nat) returns (found: bool)
    requires |block| <= BLOCK
    ensures found <==> exists q :: scanFrom <= q && ChainFrom(sum, block, q, |block|)
  {
    var at := scanFrom;
    while at + HEADER <= |block|
      invariant scanFrom <= at
      invariant forall q :: scanFrom <= q < at ==> !ChainFrom(sum, block, q, |block|)
      decreases |block| - at
    {
      if Known(block[at + 6]) && at + HEADER + LengthAt(block, at) <= |block| {
        var chain := VerifiesToBlockEnd(sum, block, at);
        if chain {
          return true;
        }
      } else {
        assert BlockEnd(block, at) == |block|;
      }
      at := at + 1;
    }
    return false;
  }

  // ------------------------------------------------------------- the reader

  /** What damaged() owes the caller after a failure: it is set when something
      readable is where the search looks, and only when something is. */
  ghost predicate Reported(damaged: bool, sum: Sum, file: Bytes, at: nat, walk: nat, scan: nat) {
    && (Followed(sum, file, at, walk, scan) ==> damaged)
    && (damaged ==> exists q :: (walk <= q || scan <= q) && VerifiesAt(sum, file, q))
  }

  /** The walk and the byte search have nothing to find in the block at s. */
  ghost predicate NothingInBlock(sum: Sum, file: Bytes, s: nat, walk: nat, scan: nat) {
    var end := BlockEnd(file, s);
    && !(walk + HEADER <= end && VerifiesAt(sum, file, walk))
    && (forall q :: scan <= q ==> !ChainFrom(sum, file, q, end))
  }

  lemma VerifiesShift(sum: Sum, file: Bytes, s: nat, o: nat)
    requires s % BLOCK == 0 && s <= |file| && o + HEADER <= |BlockAt(file, s)|
    ensures VerifiesAt(sum, BlockAt(file, s), o) == VerifiesAt(sum, file, s + o)
    ensures ChainFrom(sum, BlockAt(file, s), o, |BlockAt(file, s)|) ==
        ChainFrom(sum, file, s + o, s + |BlockAt(file, s)|)
  {
    HeaderShift(sum, file, s, o);
    ZeroedShift(file, s, o);
    ChainShift(sum, file, s, o);
  }

  lemma VerifiesInside(sum: Sum, block: Bytes, q: nat)
    requires |block| <= BLOCK && VerifiesAt(sum, block, q)
    ensures q + HEADER <= |block|
  {
  }

  /** Both searches of one block, told in file positions. */
  method SearchBlock(sum: Sum, block: Bytes, walk: nat, scan: nat, ghost file: Bytes, ghost s: nat)
    returns (found: bool)
    requires s % BLOCK == 0 && s <= |file| && block == BlockAt(file, s)
    ensures found ==> exists q :: (s + walk <= q || s + scan <= q) && VerifiesAt(sum, file, q)
    ensures !found ==> NothingInBlock(sum, file, s, s + walk, s + scan)
  {
    found := WalkBlock(sum, block, walk);
    if found {
      ghost var q :| walk <= q && VerifiesAt(sum, block, q);
      VerifiesInside(sum, block, q);
      VerifiesShift(sum, file, s, q);
      return;
    }
    found := ScanBlock(sum, block, scan);
    if found {
      ghost var q :| scan <= q && ChainFrom(sum, block, q, |block|);
      VerifiesShift(sum, file, s, q);
      return;
    }
    if walk + HEADER <= |block| {
      VerifiesShift(sum, file, s, walk);
    }
    forall q | s + scan <= q ensures !ChainFrom(sum, file, q, BlockEnd(file, s)) {
      if q - s + HEADER <= |block| {
        VerifiesShift(sum, file, s, q - s);
      }
    }
  }

  /** No block between these positions starts with a record that verifies. */
  ghost predicate NoneStart(sum: Sum, file: Bytes, lo: nat, hi: nat) {
    forall q :: lo <= q < hi && q % BLOCK == 0 ==> !VerifiesAt(sum, file, q)
  }

  lemma OneBlockStart(s: nat, q: nat)
    requires s % BLOCK == 0 && q % BLOCK == 0 && s <= q < s + BLOCK
    ensures q == s
  {
  }

  lemma BlockSearched(sum: Sum, file: Bytes, start: nat, s: nat)
    requires s % BLOCK == 0 && s < |file| && NoneStart(sum, file, start, s) && NothingInBlock(sum, file, s, s, s)
    ensures NoneStart(sum, file, start, s + BLOCK)
  {
    assert !VerifiesAt(sum, file, s);
    forall q | start <= q < s + BLOCK && q % BLOCK == 0 ensures !VerifiesAt(sum, file, q) {
      if s <= q {
        OneBlockStart(s, q);
      }
    }
  }

  lemma BlockShape(file: Bytes, s: nat)
    requires s % BLOCK == 0 && s < |file|
    ensures s < BlockEnd(file, s) <= |file| && |BlockAt(file, s)| == BlockEnd(file, s) - s <= BLOCK
    ensures |BlockAt(file, s)| < BLOCK ==> |file| <= s + BLOCK
    ensures |BlockAt(file, s)| == BLOCK ==> BlockEnd(file, s) == s + BLOCK && (s + BLOCK) % BLOCK == 0
  {
  }

  lemma NotFollowed(sum: Sum, file: Bytes, at: nat, first: nat, walk: nat, scan: nat)
    requires first == BlockStart(at) && NoneStart(sum, file, BlockEnd(file, first), |file|)
    requires NothingInBlock(sum, file, first, walk, scan)
    ensures Reported(false, sum, file, at, walk, scan)
  {
    assert BlockEnd(file, at) == BlockEnd(file, first);
    forall q | BlockEnd(file, first) <= q && q % BLOCK == 0 ensures !VerifiesAt(sum, file, q) {
    }
  }

  lemma FoundHere(sum: Sum, file: Bytes, at: nat, walk: nat, scan: nat)
    requires exists q :: (walk <= q || scan <= q) && VerifiesAt(sum, file, q)
    ensures Reported(true, sum, file, at, walk, scan)
  {
  }

  lemma FoundLater(sum: Sum, file: Bytes, at: nat, walk: nat, scan: nat, s: nat)
    requires walk <= s && exists q :: s <= q && VerifiesAt(sum, file, q)
    ensures Reported(true, sum, file, at, walk, scan)
  {
    var q :| s <= q && VerifiesAt(sum, file, q);
    assert (walk <= q || scan <= q) && VerifiesAt(sum, file, q);
  }

  /** The checks of read_physical_record, in their order, on a header in the block. */
  method ParseHeader(sum: Sum, block: Bytes, offset: nat) returns (r: Physical)
    requires |block| <= BLOCK && offset + HEADER <= |block|
    ensures r == HeaderAt(sum, block, offset) && !r.Over?
    ensures r.Failed? ==> r.at == offset && r.resume <= |block|
    ensures r.Record? ==> r.next == offset + HEADER + |r.payload| <= |block|
  {
    assert BlockEnd(block, offset) == |block|;
    var length := LengthAt(block, offset);
    if Zeroed(block, offset) {
      return Failed(offset, offset);
    }
    if offset + HEADER + length > |block| {
      return Failed(offset, |block|);
    }
    var kind, payload := block[offset + 6], block[offset + HEADER..offset + HEADER + length];
    if block[offset..offset + 4] != sum([kind] + payload) {
      return Failed(offset, offset + HEADER + length);
    }
    return Record(kind, payload, offset + HEADER + length);
  }

  /** Where the byte search begins: just past the failed header, or earlier. */
  function ScanFrom(resume: nat, offset: nat): nat {
    if resume < offset + 1 then resume else offset + 1
  }

  datatype Gathering = Finished(record: Bytes) | More(scratch: Bytes) | Ended

  datatype Fragment = Fragment(kind: Byte, payload: Bytes)

  class LogReader {
    const sum: Sum
    const file: Bytes
    var sourcePos: nat
    var block: Bytes
    var blockOffset: nat
    var eof: bool
    var truncated: bool
    var damaged: bool

    ghost predicate InHand(s: nat)
      reads this`block, this`sourcePos
    {
      s % BLOCK == 0 && s < |file| && block == BlockAt(file, s) && sourcePos == BlockEnd(file, s)
    }

    /** The block in hand is a whole block of the file, or its last. */
    ghost predicate Loaded()
      reads this
    {
      && |block| <= sourcePos <= |file| && 0 < |block| && blockOffset <= |block|
      && (sourcePos - |block|) % BLOCK == 0
      && sourcePos == BlockEnd(file, sourcePos - |block|) && block == BlockAt(file, sourcePos - |block|)
    }

    ghost predicate Valid()
      reads this
    {
      Loaded() || (sourcePos == 0 && block == [] && blockOffset == 0)
    }

    /** Where in the file the reader is. */
    ghost function Pos(): nat
      requires Valid()
      reads this
    {
      sourcePos - |block| + blockOffset
    }

    constructor (sum: Sum, file: Bytes)
      ensures Valid() && this.sum == sum && this.file == file && Pos() == 0
      ensures !eof && !truncated && !damaged
    {
      this.sum, this.file := sum, file;
      sourcePos, block, blockOffset := 0, [], 0;
      eof, truncated, damaged := false, false, false;
    }

    /** A read of one block: short only at the end of the file. */
    method ReadBlock()
      requires sourcePos <= |file| && sourcePos % BLOCK == 0
      modifies this`sourcePos, this`block
      ensures block == BlockAt(file, old(sourcePos)) && sourcePos == BlockEnd(file, old(sourcePos))
    {
      var end := if sourcePos + BLOCK <= |file| then sourcePos + BLOCK else |file|;
      block := file[sourcePos..end];
      sourcePos := end;
    }

    method LoadNextBlock() returns (ok: bool)
      requires sourcePos <= |file| && sourcePos % BLOCK == 0
      modifies this`sourcePos, this`block, this`blockOffset, this`eof
      ensures ok == (old(sourcePos) < |file|)
      ensures ok ==> Loaded() && sourcePos - |block| == old(sourcePos) && blockOffset == 0 && eof == old(eof)
      ensures !ok ==> eof
    {
      ReadBlock();
      blockOffset := 0;
      ok := block != [];
      if !ok {
        eof := true;
      }
    }

    /** Searches the block at s, which begins the file's unread rest but for
        itself, and every block after it, from their starts. */
    method SearchBlocks(ghost start: nat) returns (found: bool)
      requires InHand(start)
      modifies this`sourcePos, this`block
      ensures found ==> exists q :: start <= q && VerifiesAt(sum, file, q)
      ensures !found ==> NoneStart(sum, file, start, |file|)
    {
      ghost var s := start;
      while true
        invariant InHand(s) && start <= s && NoneStart(sum, file, start, s)
        decreases |file| - s
      {
        found := SearchBlock(sum, block, 0, 0, file, s);
        if found {
          return;
        }
        BlockSearched(sum, file, start, s);
        BlockShape(file, s);
        if |block| < BLOCK {
          return false;
        }
        s := sourcePos;
        ReadBlock();
        if block == [] {
          return false;
        }
      }
    }

    /** Looks for a readable record in this block and then in every later one. */
    method ReadableRecordFollows(walkFrom: nat, scanFrom: nat, ghost at: nat) returns (found: bool)
      requires Loaded() && at <= |file| && BlockStart(at) == sourcePos - |block| && walkFrom <= |block|
      modifies this`sourcePos, this`block
      ensures var s := old(sourcePos - |block|);
              Reported(found, sum, file, at, s + walkFrom, s + scanFrom)
    {
      ghost var first, end := sourcePos - |block|, sourcePos;
      BlockShape(file, first);
      found := SearchBlock(sum, block, walkFrom, scanFrom, file, first);
      if found {
        FoundHere(sum, file, at, first + walkFrom, first + scanFrom);
        return;
      }
      if |block| == BLOCK {
        ReadBlock();
        if block != [] {
          found := SearchBlocks(end);
        }
      }
      if found {
        FoundLater(sum, file, at, first + walkFrom, first + scanFrom, end);
      } else {
        NotFollowed(sum, file, at, first, first + walkFrom, first + scanFrom);
      }
    }

    /** Ends the read at a failure whose fragment lies at `at`; the ghost
        parameters are the search's positions in the file. */
    method StopReading(resumeOffset: nat, ghost at: nat, ghost walk: nat, ghost scan: nat)
      requires Loaded() && at <= |file| && BlockStart(at) == sourcePos - |block| && resumeOffset <= |block|
      requires walk == sourcePos - |block| + resumeOffset
      requires scan == sourcePos - |block| + ScanFrom(resumeOffset, blockOffset)
      modifies this`sourcePos, this`block, this`eof, this`truncated, this`damaged
      ensures eof && truncated && Reported(damaged, sum, file, at, walk, scan)
    {
      truncated, eof := true, true;
      var scanFrom := ScanFrom(resumeOffset, blockOffset);
      damaged := ReadableRecordFollows(resumeOffset, scanFrom, at);
    }

    /** The state after a physical read that found r. */
    ghost predicate Agrees(r: Physical, got: Option<Fragment>)
      reads this
    {
      match r
      case Record(kind, payload, next) =>
        && got == Some(Fragment(kind, payload)) && Loaded() && Pos() == next && !eof
        && HEADER + |payload| <= blockOffset
      case Over => got == None && eof
      case Failed(at, resume) =>
        && got == None && eof && truncated
        && Reported(damaged, sum, file, at, resume, ScanFrom(resume, at))
    }

    /** Acts on what was parsed at the block offset. */
    method TakeParsed(r: Physical, ghost whole: Physical) returns (got: Option<Fragment>)
      requires Loaded() && !eof && !r.Over? && whole == Shifted(r, sourcePos - |block|)
      requires r.Record? ==> HEADER + |r.payload| <= r.next <= |block|
      requires r.Failed? ==> r.at == blockOffset < BLOCK && r.resume <= |block|
      modifies this
      ensures Agrees(whole, got)
      ensures !whole.Failed? ==> truncated == old(truncated) && damaged == old(damaged)
    {
      match r
      case Record(kind, payload, next) =>
        blockOffset := next;
        got := Some(Fragment(kind, payload));
      case Failed(at, resume) =>
        BlockOffset(sourcePos - |block|, blockOffset);
        StopReading(resume, whole.at, whole.resume, ScanFrom(whole.resume, whole.at));
        got := None;
    }

    /** The record whose header is at the block offset. */
    method ReadHeader() returns (got: Option<Fragment>, ghost r: Physical)
      requires Loaded() && !eof && blockOffset + HEADER <= |block|
      modifies this
      ensures r == HeaderAt(sum, file, old(Pos())) && Agrees(r, got)
      ensures !r.Failed? ==> truncated == old(truncated) && damaged == old(damaged)
    {
      BlockShape(file, sourcePos - |block|);
      HeaderShift(sum, file, sourcePos - |block|, blockOffset);
      var parsed := ParseHeader(sum, block, blockOffset);
      r := Shifted(parsed, sourcePos - |block|);
      got := TakeParsed(parsed, r);
    }

    /** Past what is left of a full block that cannot hold a header. */
    method SkipPadding() returns (more: bool)
      requires Loaded() && !eof
      modifies this`sourcePos, this`block, this`blockOffset, this`eof
      ensures more ==> Loaded() && !eof && Pos() == Skipped(file, old(Pos()))
      ensures more ==> blockOffset + HEADER <= |block| || |block| < BLOCK
      ensures !more ==> eof && Skipped(file, old(Pos())) == |file|
    {
      ghost var s := sourcePos - |block|;
      BlockShape(file, s);
      if blockOffset + HEADER <= |block| {
        HeaderHere(file, s, blockOffset);
        return true;
      }
      if |block| < BLOCK {
        LastBlock(sum, file, s, blockOffset);
        return true;
      }
      PaddingSkipped(file, s, blockOffset);
      more := LoadNextBlock();
      if more {
        BlockShape(file, s + BLOCK);
      }
    }

    /** Too few bytes for a header at the end of the file: none, or stray ones. */
    method ReadLastBytes(ghost r: Physical) returns (got: Option<Fragment>)
      requires Loaded() && !eof && |block| < BLOCK && blockOffset + HEADER > |block|
      requires r == if blockOffset < |block| then Failed(Pos(), sourcePos) else Over
      modifies this
      ensures Agrees(r, got)
      ensures !r.Failed? ==> truncated == old(truncated) && damaged == old(damaged)
    {
      got := None;
      if blockOffset < |block| {
        BlockOffset(sourcePos - |block|, blockOffset);
        StopReading(|block|, r.at, r.resume, ScanFrom(r.resume, r.at));
      } else {
        eof := true;
      }
    }

    /** read_physical_record: past the padding of a full block, then the record. */
    method ReadPhysicalRecord() returns (got: Option<Fragment>, ghost r: Physical)
      requires Loaded() && !eof
      modifies this
      ensures r == PhysicalAt(sum, file, old(Pos())) && Agrees(r, got)
      ensures !r.Failed? ==> truncated == old(truncated) && damaged == old(damaged)
    {
      var more := SkipPadding();
      if !more {
        AtTheEnd(sum, file);
        return None, Over;
      }
      if blockOffset + HEADER > |block| {
        BlockShape(file, sourcePos - |block|);
        LastBlock(sum, file, sourcePos - |block|, blockOffset);
        r := if blockOffset < |block| then Failed(Pos(), sourcePos) else Over;
        got := ReadLastBytes(r);
      } else {
        got, r := ReadHeader();
      }
    }

    /** The flags say how the read ended. */
    ghost predicate Ended(stop: Stop)
      reads this
    {
      && eof && truncated == !stop.Clean?
      && match stop
         case Clean => !damaged
         case MidRecord => !damaged
         case Failure(at, walk, scan) => Reported(damaged, sum, file, at, walk, scan)
    }

    ghost predicate Reading()
      reads this
    {
      Loaded() && !eof && !truncated && !damaged
    }

    /** A fragment that verified but cannot come here: stop at its start. */
    method StopAtFragment(payload: Bytes, ghost at: nat)
      requires Loaded() && HEADER + |payload| <= blockOffset && at == Pos() - HEADER - |payload|
      modifies this
      ensures Ended(Failure(at, at, at))
    {
      BlockShape(file, sourcePos - |block|);
      BlockOffset(sourcePos - |block|, blockOffset - HEADER - |payload|);
      StopReading(blockOffset - HEADER - |payload|, at, at, at);
    }

    /** The next fragment of a record of which `scratch` has been gathered. */
    method ReadFragment(scratch: Bytes) returns (turn: Gathering, ghost stop: Stop)
      requires Reading()
      modifies this
      ensures match turn
              case Finished(record) =>
                Reading() && ReadFrom(sum, file, old(Pos()), Some(scratch)) ==
                    ReadFrom(sum, file, Pos(), None).With(record)
              case More(longer) =>
                && Reading() && old(Pos()) < Pos()
                && ReadFrom(sum, file, old(Pos()), Some(scratch)) == ReadFrom(sum, file, Pos(), Some(longer))
              case Ended => ReadFrom(sum, file, old(Pos()), Some(scratch)) == Outcome([], stop) && Ended(stop)
    {
      ghost var p := Pos();
      var got, r := ReadPhysicalRecord();
      stop := Clean;
      if got.None? {
        StopsHere(sum, file, p, Some(scratch));
        truncated := true;
        stop := StopOf(r, true);
        return Gathering.Ended, stop;
      }
      var payload := got.value.payload;
      if got.value.kind == MIDDLE {
        FragmentTaken(sum, file, p, Some(scratch), false, r);
        return More(scratch + payload), stop;
      }
      if got.value.kind == LAST {
        FragmentTaken(sum, file, p, Some(scratch), true, r);
        return Finished(scratch + payload), stop;
      }
      UnexpectedHere(sum, file, p, Some(scratch), r);
      stop := Unexpected(r).stop;
      StopAtFragment(payload, stop.at);
      return Gathering.Ended, stop;
    }

    /** The rest of a fragmented record, after `first`. */
    method ReadRest(first: Bytes) returns (record: Option<Bytes>, ghost stop: Stop)
      requires Reading()
      modifies this
      ensures record.Some? ==>
                Reading() && ReadFrom(sum, file, old(Pos()), Some(first)) ==
                    ReadFrom(sum, file, Pos(), None).With(record.value)
      ensures record.None? ==> ReadFrom(sum, file, old(Pos()), Some(first)) == Outcome([], stop) && Ended(stop)
    {
      var scratch := first;
      ghost var o := ReadFrom(sum, file, Pos(), Some(first));
      while true
        invariant Reading() && o == ReadFrom(sum, file, Pos(), Some(scratch))
        decreases |file| - Pos()
      {
        var turn;
        turn, stop := ReadFragment(scratch);
        match turn
        case Ended => return None, stop;
        case Finished(whole) => return Some(whole), stop;
        case More(longer) => scratch := longer;
      }
    }

    /** The next record, or the end of the read. */
    method ReadRecord() returns (record: Option<Bytes>, ghost stop: Stop)
      requires eof || (Valid() && !truncated && !damaged)
      modifies this
      ensures old(eof) ==> record == None && eof && truncated == old(truncated) && damaged == old(damaged)
      ensures !old(eof) && record.Some? ==>
                Reading() && ReadFrom(sum, file, old(Pos()), None) ==
                    ReadFrom(sum, file, Pos(), None).With(record.value)
      ensures !old(eof) && record.None? ==> ReadFrom(sum, file, old(Pos()), None) == Outcome([], stop) && Ended(stop)
    {
      if eof {
        return None, Clean;
      }
      if block == [] {
        var ok := LoadNextBlock();
        if !ok {
          NothingLeft(sum, file);
          return None, Clean;
        }
      }
      record, stop := ReadLoaded();
    }

    method ReadLoaded() returns (record: Option<Bytes>, ghost stop: Stop)
      requires Reading()
      modifies this
      ensures record.Some? ==>
                Reading() && ReadFrom(sum, file, old(Pos()), None) ==
                    ReadFrom(sum, file, Pos(), None).With(record.value)
      ensures record.None? ==> ReadFrom(sum, file, old(Pos()), None) == Outcome([], stop) && Ended(stop)
    {
      ghost var p := Pos();
      var got, r := ReadPhysicalRecord();
      stop := Clean;
      if got.None? {
        StopsHere(sum, file, p, None);
        return None, StopOf(r, false);
      }
      var payload := got.value.payload;
      assert [] + payload == payload;
      if got.value.kind == FULL {
        FragmentTaken(sum, file, p, None, true, r);
        return Some(payload), stop;
      }
      if got.value.kind != FIRST {
        UnexpectedHere(sum, file, p, None, r);
        stop := Unexpected(r).stop;
        StopAtFragment(payload, stop.at);
        return None, stop;
      }
      FragmentTaken(sum, file, p, None, false, r);
      record, stop := ReadRest(payload);
    }

    /** Every record from here on: recovery's loop. */
    method ReadAll() returns (records: seq<Bytes>, ghost stop: Stop)
      requires Valid() && !eof && !truncated && !damaged
      modifies this
      ensures ReadFrom(sum, file, old(Pos()), None) == Outcome(records, stop) && Ended(stop)
    {
      records := [];
      ghost var o := ReadFrom(sum, file, Pos(), None);
      ghost var rest := o;
      while true
        invariant Valid() && !eof && !truncated && !damaged
        invariant rest == ReadFrom(sum, file, Pos(), None) && o == Joined(records, rest)
        decreases |rest.records|
      {
        var record;
        record, stop := ReadRecord();
        if record.None? {
          return;
        }
        rest := ReadFrom(sum, file, Pos(), None);
        JoinedOne(records, record.value, rest);
        records := records + [record.value];
      }
    }
  }

  lemma UnexpectedHere(sum: Sum, file: Bytes, p: nat, partial: Option<Bytes>, r: Physical)
    requires r == PhysicalAt(sum, file, p) && r.Record? && HEADER + |r.payload| <= r.next
    requires forall last :: r.kind != KindOf(partial.None?, last)
    ensures ReadFrom(sum, file, p, partial) == Unexpected(r)
  {
    assert r.kind != KindOf(partial.None?, true) && r.kind != KindOf(partial.None?, false);
  }

  lemma BlockOffset(s: nat, o: nat)
    requires s % BLOCK == 0 && o < BLOCK
    ensures BlockStart(s + o) == s
  {
  }

  lemma PaddingSkipped(file: Bytes, s: nat, o: nat)
    requires s % BLOCK == 0 && s + BLOCK <= |file| && o <= BLOCK < o + HEADER
    ensures Skipped(file, s + o) == s + BLOCK == Skipped(file, s + BLOCK)
  {
  }

  lemma AtTheEnd(sum: Sum, file: Bytes)
    ensures HeaderAt(sum, file, |file|) == Over
  {
  }

  lemma LastBlock(sum: Sum, file: Bytes, s: nat, o: nat)
    requires s % BLOCK == 0 && s < |file| < s + BLOCK && o <= |file| - s < o + HEADER
    ensures Skipped(file, s + o) == s + o
    ensures HeaderAt(sum, file, s + o) == if s + o < |file| then Failed(s + o, |file|) else Over
  {
  }

  lemma HeaderHere(file: Bytes, s: nat, o: nat)
    requires s % BLOCK == 0 && s < |file| && o + HEADER <= |BlockAt(file, s)|
    ensures Skipped(file, s + o) == s + o
  {
  }

  lemma JoinedOne(records: seq<Bytes>, record: Bytes, rest: Outcome)
    ensures Joined(records, rest.With(record)) == Joined(records + [record], rest)
  {
    assert records + ([record] + rest.records) == records + [record] + rest.records;
  }

  /** The flags, told by the outcome of the whole read. */
  ghost predicate Told(sum: Sum, file: Bytes, stop: Stop, truncated: bool, damaged: bool) {
    && truncated == !stop.Clean?
    && if stop.Failure? then Reported(damaged, sum, file, stop.at, stop.walk, stop.scan) else !damaged
  }

  /** Reads a log to its end, as recovery does: every record up to the first
      place where none lies, and truncated() unless nothing is there. */
  method ReadLog(sum: Sum, file: Bytes) returns (records: seq<Bytes>, truncated: bool, damaged: bool)
    ensures exists end: nat :: RecordsFrom(sum, file, 0, records, end) &&
              (truncated <==> !PhysicalAt(sum, file, end).Over?)
    ensures records == ReadFrom(sum, file, 0, None).records
    ensures Told(sum, file, ReadFrom(sum, file, 0, None).stop, truncated, damaged)
  {
    var reader := new LogReader(sum, file);
    ghost var stop;
    records, stop := reader.ReadAll();
    truncated, damaged := reader.truncated, reader.damaged;
    ghost var end := ReadsEveryRecord(sum, file, 0);
  }

  lemma CutRead(sum: Sum, written: seq<Bytes>, k: nat, file: Bytes) returns (stop: Stop)
    requires k <= |written| && LogEnd(written, k) <= |file| && file <= Log(sum, written)
    requires k < |written| ==> |file| < LogEnd(written, k + 1)
    ensures ReadFrom(sum, file, 0, None) == Outcome(written[..k], stop)
    ensures stop.Clean? <==> BetweenRecords(written, k, |file|)
    ensures stop.Failure? ==>
              PastWhole(LogFrames(written), |file|, stop.walk) && PastWhole(LogFrames(written), |file|, stop.scan)
  {
    assert file == Log(sum, written)[..|file|];
    stop := CutLog(sum, written, k, |file|);
  }

  /** Every byte a crash may cut the log at: exactly the whole records come back,
      truncated() says whether the cut took a part of one, and damaged() is told
      only of something that verifies where nothing whole was written. */
  method ReadCutLog(sum: Sum, ghost written: seq<Bytes>, ghost k: nat, file: Bytes)
    returns (records: seq<Bytes>, truncated: bool, damaged: bool)
    requires k <= |written| && LogEnd(written, k) <= |file| && file <= Log(sum, written)
    requires k < |written| ==> |file| < LogEnd(written, k + 1)
    ensures records == written[..k]
    ensures truncated <==> |file| != LogEnd(written, k) && |file| != Next(LogEnd(written, k))
    ensures damaged ==> truncated && exists q :: VerifiesAt(sum, file, q) && PastWhole(LogFrames(written), |file|, q)
  {
    records, truncated, damaged := ReadLog(sum, file);
    ghost var stop := CutRead(sum, written, k, file);
    if damaged {
      ghost var q :| (stop.walk <= q || stop.scan <= q) && VerifiesAt(sum, file, q);
      assert PastWhole(LogFrames(written), |file|, q);
    }
  }

  /** A damaged fragment with another after it: the records before it, and
      damaged() says so. */
  method ReadDamagedLog(sum: Sum, ghost written: seq<Bytes>, ghost k: nat, ghost m: nat, file: Bytes)
    returns (records: seq<Bytes>, damaged: bool)
    requires k < |written| && Count(written, k) <= m < Count(written, k + 1) && m + 1 < |LogFrames(written)|
    requires DamagedIn(Log(sum, written), file, LogFrames(written)[m]) && SumBroken(sum, file, LogFrames(written)[m])
    ensures records == written[..k] && damaged
  {
    var truncated;
    records, truncated, damaged := ReadLog(sum, file);
    DamagedLog(sum, written, k, m, file);
  }
}
