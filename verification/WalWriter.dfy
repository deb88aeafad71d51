/** LogWriter: appends one record, cut into fragments at block boundaries. */
module WalWriter {
  import opened Keys
  import opened Entries
  import opened WalFormat
  import opened WalProofs

  lemma LaidAppend(sum: Sum, frames: seq<Frame>, f: Frame, before: Bytes, pad: Bytes)
    requires Chained(0, frames) && f.Fits() && f.at == Next(EndOf(0, frames))
    requires before == Laid(sum, 0, frames) && pad == Zeros(f.at - EndOf(0, frames))
    ensures Chained(0, frames + [f]) && Laid(sum, 0, frames + [f]) == before + pad + f.Bytes(sum)
  {
    Regroup(before, pad, f.Bytes(sum));
    assert EndBefore(EndOf(0, frames), [f], 0) == EndOf(0, frames);
    ChainedJoin(0, frames, [f]);
    var n := |frames|;
    assert (frames + [f])[..n] == frames;
    EndsJoin(0, frames, [f], n);
  }

  /** The fragments still to be written, after the first of them. */
  lemma FramesLeft(a: nat, left: Bytes, first: bool, done: seq<Frame>, all: seq<Frame>)
    requires done + FramesOf(a, left, first) == all
    ensures var f := FirstFrame(a, left, first);
            if |f.payload| == |left| then done + [f] == all
            else done + [f] + FramesOf(f.End(), left[|f.payload|..], false) == all
  {
    var f := FirstFrame(a, left, first);
    if |f.payload| != |left| {
      var rest := FramesOf(f.End(), left[|f.payload|..], false);
      assert done + ([f] + rest) == done + [f] + rest;
    }
  }

  class LogWriter {
    const sum: Sum
    var dest: Bytes
    var offset: nat
    ghost var records: seq<Bytes>

    ghost predicate Valid()
      reads this
    {
      Wrote(LogFrames(records))
    }

    /** The file holds these fragments, and the block offset agrees with it. */
    ghost predicate Wrote(frames: seq<Frame>)
      reads this`dest, this`offset
    {
      && Chained(0, frames) && dest == Laid(sum, 0, frames)
      && offset <= BLOCK && offset % BLOCK == |dest| % BLOCK
    }

    constructor (sum: Sum)
      ensures Valid() && records == [] && dest == []
    {
      this.sum, dest, offset, records := sum, [], 0, [];
    }

    /** Fewer than seven bytes left in the block are filled with zeros. */
    method PadBlock()
      requires offset <= BLOCK && offset % BLOCK == |dest| % BLOCK
      modifies this`dest, this`offset
      ensures dest == old(dest) + Zeros(Next(old(|dest|)) - old(|dest|))
      ensures |dest| == Next(old(|dest|)) && offset == |dest| % BLOCK
    {
      var blockLeft := BLOCK - offset;
      if blockLeft < HEADER {
        if blockLeft > 0 {
          dest := dest + seq(blockLeft, _ => 0);
        }
        offset := 0;
      }
    }

    /** One turn of add_record's loop: padding if a header does not fit, then
        the largest fragment that does. */
    method AddFragment(data: Bytes, first: bool, ghost frames: seq<Frame>) returns (n: nat)
      requires Wrote(frames)
      modifies this`dest, this`offset
      ensures var f := FirstFrame(old(|dest|), data, first);
              n == |f.payload| && |dest| == f.End() && Wrote(frames + [f])
    {
      ghost var f := FirstFrame(|dest|, data, first);
      LaidAppend(sum, frames, f, dest, Zeros(f.at - |dest|));
      PadBlock();
      var available := BLOCK - offset - HEADER;
      n := if |data| < available then |data| else available;
      var kind := KindOf(first, n == |data|);
      EmitPhysicalRecord(kind, data[..n], f);
    }

    method EmitPhysicalRecord(kind: Byte, data: Bytes, ghost f: Frame)
      requires f.Fits() && f == Frame(|dest|, kind, data) && offset + HEADER + |data| <= BLOCK
      requires offset % BLOCK == |dest| % BLOCK
      modifies this`dest, this`offset
      ensures dest == old(dest) + f.Bytes(sum)
      ensures offset <= BLOCK && offset % BLOCK == |dest| % BLOCK
    {
      var header := sum([kind] + data) + [|data| % 256, |data| / 256, kind];
      ghost var before := dest;
      dest := dest + header;
      dest := dest + data;
      assert dest == before + (header + data);
      offset := offset + HEADER + |data|;
    }

    /** The loop of add_record. */
    method AddFragments(payload: Bytes, ghost frames: seq<Frame>)
      requires Wrote(frames)
      modifies this`dest, this`offset
      ensures Wrote(frames + FramesOf(old(|dest|), payload, true))
    {
      ghost var all, sofar := frames + FramesOf(|dest|, payload, true), frames;
      var left, first := payload, true;
      while true
        invariant Wrote(sofar) && sofar + FramesOf(|dest|, left, first) == all
        decreases |FramesOf(|dest|, left, first)|
      {
        FramesLeft(|dest|, left, first, sofar, all);
        ghost var f := FirstFrame(|dest|, left, first);
        var n := AddFragment(left, first, sofar);
        sofar := sofar + [f];
        left := left[n..];
        first := false;
        if |left| == 0 {
          break;
        }
      }
    }

    /** Appends one record of any size, empty ones included. */
    method AddRecord(payload: Bytes)
      requires Valid()
      modifies this
      ensures Valid() && records == old(records) + [payload]
    {
      RecordAppended(records, payload);
      AddFragments(payload, LogFrames(records));
      records := records + [payload];
    }
  }

  lemma Regroup(a: Bytes, b: Bytes, c: Bytes)
    ensures a + b + c == a + (b + c)
  {
  }

  lemma RecordAppended(records: seq<Bytes>, payload: Bytes)
    ensures LogFrames(records + [payload]) == LogFrames(records) + FramesOf(EndOf(0, LogFrames(records)), payload, true)
  {
    assert (records + [payload])[..|records|] == records;
  }
}
