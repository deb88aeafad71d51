/** A damaged fragment in the middle of a log: the reader stops before the
    record it belongs to, and what it must then find is there. */
module WalDamage {
  import opened Keys
  import opened Entries
  import opened WalFormat
  import opened WalProofs

  // ------------------------------------------------- what the search looks for

  predicate Known(kind: Byte) {
    FULL <= kind <= LAST
  }

  /** A record at q that carries the checksum it claims. */
  predicate VerifiesAt(sum: Sum, file: Bytes, q: nat) {
    var r := HeaderAt(sum, file, q);
    r.Record? && Known(r.kind)
  }

  ghost predicate ZerosTo(file: Bytes, q: nat, end: nat)
    requires end <= |file|
  {
    forall i :: q <= i < end ==> file[i] == 0
  }

  /** Records verify back to back from q to the block's padding or end. */
  ghost predicate ChainTo(sum: Sum, file: Bytes, q: nat, end: nat)
    requires end <= |file|
    decreases |file| - q
  {
    if q + HEADER <= end && !Zeroed(file, q) then
      VerifiesAt(sum, file, q) && HeaderAt(sum, file, q).next <= end &&
          ChainTo(sum, file, HeaderAt(sum, file, q).next, end)
    else ZerosTo(file, q, end)
  }

  /** At least one record, and a chain of them to the block's end. */
  ghost predicate ChainFrom(sum: Sum, file: Bytes, q: nat, end: nat)
    requires end <= |file|
  {
    q + HEADER <= end && !Zeroed(file, q) && ChainTo(sum, file, q, end)
  }

  /** A record the walk meets at once, a chain the byte search meets, or a
      record at the start of a later block. */
  ghost predicate Followed(sum: Sum, file: Bytes, at: nat, walk: nat, scan: nat) {
    var end := BlockEnd(file, at);
    || (walk + HEADER <= end && VerifiesAt(sum, file, walk))
    || (exists q :: scan <= q && ChainFrom(sum, file, q, end))
    || (exists q :: end <= q && q % BLOCK == 0 && VerifiesAt(sum, file, q))
  }

  // --------------------------------------------------------- a damaged log

  /** The file is the log but for frame f's type byte and payload. */
  ghost predicate DamagedIn(log: Bytes, file: Bytes, f: Frame) {
    |file| == |log| && forall i :: 0 <= i < |log| && !(f.at + 6 <= i < f.End()) ==> file[i] == log[i]
  }

  /** Its stored checksum is not that of the bytes now there. */
  ghost predicate SumBroken(sum: Sum, file: Bytes, f: Frame) {
    f.End() <= |file| && file[f.at..f.at + 4] != sum([file[f.at + 6]] + file[f.at + HEADER..f.End()])
  }

  lemma HoldsElsewhere(sum: Sum, log: Bytes, file: Bytes, f: Frame, g: Frame)
    requires DamagedIn(log, file, f) && Holds(sum, log, g) && (g.End() <= f.at || f.End() <= g.at)
    ensures Holds(sum, file, g)
  {
  }

  lemma FrameVerifies(sum: Sum, file: Bytes, g: Frame)
    requires g.Fits() && Holds(sum, file, g)
    ensures VerifiesAt(sum, file, g.at) && HeaderAt(sum, file, g.at).next == g.End() && !Zeroed(file, g.at)
  {
    HeaderReads(sum, file, g);
    HoldsParts(sum, file, g);
  }

  /** The damaged frame stops the reader. */
  lemma DamagedStops(sum: Sum, log: Bytes, file: Bytes, p: nat, f: Frame)
    requires f.Fits() && f.at == Next(p) && Holds(sum, log, f) && DamagedIn(log, file, f)
    requires SumBroken(sum, file, f)
    ensures PhysicalAt(sum, file, p) == Failed(f.at, if Zeroed(file, f.at) then f.at else f.End())
  {
    HoldsParts(sum, log, f);
    SkippedIs(file, p);
    assert LengthAt(file, f.at) == |f.payload|;
  }

  /** Frame i and the padding before it are there. */
  ghost predicate Whole(sum: Sum, file: Bytes, frames: seq<Frame>, i: nat)
    requires i < |frames|
  {
    Holds(sum, file, frames[i]) && frames[i].at <= |file| && ZerosTo(file, EndBefore(0, frames, i), frames[i].at)
  }

  lemma StaysInBlock(file: Bytes, start: nat, g: Frame)
    requires g.Fits() && g.End() <= |file| && start % BLOCK == 0 && start < g.at < BlockEnd(file, start)
    ensures g.End() <= BlockEnd(file, start)
  {
  }

  lemma LeavesBlock(file: Bytes, start: nat, q: nat, g: Frame)
    requires g.at == Next(q) && g.at != q && g.End() <= |file|
    requires start % BLOCK == 0 && start < q < BlockEnd(file, start)
    ensures g.at == BlockEnd(file, start) && q + HEADER > BlockEnd(file, start)
  {
  }

  /** The undamaged frames from n on chain to the end of the block that frame
      n - 1 ends in. */
  lemma {:induction false} FramesChain(sum: Sum, file: Bytes, frames: seq<Frame>, n: nat, start: nat)
    requires Chained(0, frames) && 0 < n <= |frames| && |file| == EndOf(0, frames)
    requires forall i :: n <= i < |frames| ==> Whole(sum, file, frames, i)
    requires start % BLOCK == 0 && start < EndBefore(0, frames, n) <= BlockEnd(file, start)
    ensures ChainTo(sum, file, EndBefore(0, frames, n), BlockEnd(file, start))
    decreases |frames| - n
  {
    var q, end := EndBefore(0, frames, n), BlockEnd(file, start);
    if n < |frames| && q < end {
      var g := frames[n];
      assert Whole(sum, file, frames, n);
      HoldsParts(sum, file, g);
      if g.at == q {
        StaysInBlock(file, start, g);
        FrameVerifies(sum, file, g);
        FramesChain(sum, file, frames, n + 1, start);
      } else {
        LeavesBlock(file, start, q, g);
      }
    }
  }

  ghost predicate IsLog(sum: Sum, log: Bytes, frames: seq<Frame>) {
    |log| == EndOf(0, frames) && forall i :: 0 <= i < |frames| ==> Whole(sum, log, frames, i)
  }

  lemma LaidIsLog(sum: Sum, frames: seq<Frame>)
    requires Chained(0, frames)
    ensures IsLog(sum, Laid(sum, 0, frames), frames)
  {
    forall i | 0 <= i < |frames| ensures Whole(sum, Laid(sum, 0, frames), frames, i) {
      LaidIsWhole(sum, frames, i);
    }
  }

  lemma LaidIsWhole(sum: Sum, frames: seq<Frame>, i: nat)
    requires Chained(0, frames) && i < |frames|
    ensures Whole(sum, Laid(sum, 0, frames), frames, i)
  {
    LaidHolds(sum, frames, i);
    forall q | EndBefore(0, frames, i) <= q < frames[i].at
      ensures q < |Laid(sum, 0, frames)| && Laid(sum, 0, frames)[q] == 0 {
      LaidPadding(sum, frames, i, q);
    }
  }

  lemma WholeElsewhere(sum: Sum, log: Bytes, file: Bytes, f: Frame, frames: seq<Frame>, i: nat)
    requires i < |frames| && DamagedIn(log, file, f) && Whole(sum, log, frames, i)
    requires f.End() <= EndBefore(0, frames, i) <= frames[i].at
    ensures Whole(sum, file, frames, i)
  {
    HoldsElsewhere(sum, log, file, f, frames[i]);
  }

  lemma WholeAfter(sum: Sum, log: Bytes, file: Bytes, frames: seq<Frame>, m: nat, i: nat)
    requires Chained(0, frames) && IsLog(sum, log, frames)
    requires m < i < |frames| && DamagedIn(log, file, frames[m])
    ensures Whole(sum, file, frames, i) && frames[m].End() <= EndBefore(0, frames, i)
  {
    EndsGrow(0, frames, m + 1, i);
    assert frames[i].at == Next(EndBefore(0, frames, i));
    WholeElsewhere(sum, log, file, frames[m], frames, i);
  }

  lemma BlockOf(file: Bytes, f: Frame)
    requires f.Fits() && f.End() <= |file|
    ensures BlockStart(f.at) % BLOCK == 0 && BlockEnd(file, BlockStart(f.at)) == BlockEnd(file, f.at)
    ensures BlockStart(f.at) < f.End() <= BlockEnd(file, f.at)
    ensures BlockEnd(file, f.at) < |file| ==> BlockEnd(file, f.at) % BLOCK == 0
  {
  }

  /** One fragment's checksum broken, an intact one after it: the search has
      something to find. */
  lemma DamageFollowed(sum: Sum, log: Bytes, file: Bytes, frames: seq<Frame>, m: nat)
    requires Chained(0, frames) && IsLog(sum, log, frames)
    requires m + 1 < |frames| && DamagedIn(log, file, frames[m]) && frames[m].End() <= |file|
    ensures Zeroed(file, frames[m].at) ==> Followed(sum, file, frames[m].at, frames[m].at, frames[m].at)
    ensures !Zeroed(file, frames[m].at) ==> Followed(sum, file, frames[m].at, frames[m].End(), frames[m].at + 1)
  {
    var f, g, end := frames[m], frames[m + 1], BlockEnd(file, frames[m].at);
    BlockOf(file, f);
    WholeAfter(sum, log, file, frames, m, m + 1);
    HoldsParts(sum, file, g);
    FrameVerifies(sum, file, g);
    if g.at < end {
      NextInBlock(sum, log, file, frames, m);
    } else {
      NextInLaterBlock(file, f, g);
    }
  }

  lemma NextInLaterBlock(file: Bytes, f: Frame, g: Frame)
    requires f.Fits() && g.at == Next(f.End()) && g.End() <= |file| && BlockEnd(file, f.at) <= g.at
    ensures g.at % BLOCK == 0
  {
    BlockOf(file, f);
    if f.End() < BlockEnd(file, f.at) {
      LeavesBlock(file, BlockStart(f.at), f.End(), g);
    }
  }

  lemma NextInBlock(sum: Sum, log: Bytes, file: Bytes, frames: seq<Frame>, m: nat)
    requires Chained(0, frames) && IsLog(sum, log, frames)
    requires m + 1 < |frames| && DamagedIn(log, file, frames[m]) && frames[m].End() <= |file|
    requires frames[m + 1].at < BlockEnd(file, frames[m].at) && frames[m + 1].End() <= |file|
    requires !Zeroed(file, frames[m + 1].at)
    ensures frames[m + 1].at == frames[m].End() && frames[m + 1].End() <= BlockEnd(file, frames[m].at)
    ensures ChainFrom(sum, file, frames[m + 1].at, BlockEnd(file, frames[m].at))
  {
    var f, g, start := frames[m], frames[m + 1], BlockStart(frames[m].at);
    BlockOf(file, f);
    assert g.at == Next(EndBefore(0, frames, m + 1));
    if g.at != f.End() {
      LeavesBlock(file, start, f.End(), g);
    }
    StaysInBlock(file, start, g);
    forall i | m + 1 <= i < |frames| ensures Whole(sum, file, frames, i) {
      WholeAfter(sum, log, file, frames, m, i);
    }
    FramesChain(sum, file, frames, m + 1, start);
  }

  lemma DamagedPart(sum: Sum, log: Bytes, file: Bytes, frames: seq<Frame>, m: nat)
    requires Chained(0, frames) && IsLog(sum, log, frames)
    requires m < |frames| && DamagedIn(log, file, frames[m]) && SumBroken(sum, file, frames[m])
    ensures HoldsAll(sum, file, frames[..m])
    ensures PhysicalAt(sum, file, EndBefore(0, frames, m)) ==
              Failed(frames[m].at, if Zeroed(file, frames[m].at) then frames[m].at else frames[m].End())
  {
    assert frames[m].at == Next(EndBefore(0, frames, m));
    forall i | 0 <= i < m ensures Holds(sum, file, frames[..m][i]) {
      EndsGrow(0, frames, i + 1, m);
      assert Whole(sum, log, frames, i);
      HoldsElsewhere(sum, log, file, frames[m], frames[i]);
    }
    assert Whole(sum, log, frames, m);
    DamagedStops(sum, log, file, EndBefore(0, frames, m), frames[m]);
  }

  /** If one fragment's type or payload is changed so that its checksum fails,
      and another fragment comes after it, the reader returns exactly the
      records before, stops at a failure, and is bound to find what follows. */
  lemma DamagedLog(sum: Sum, records: seq<Bytes>, k: nat, m: nat, file: Bytes)
    requires k < |records| && Count(records, k) <= m < Count(records, k + 1) && m + 1 < |LogFrames(records)|
    requires DamagedIn(Log(sum, records), file, LogFrames(records)[m]) && SumBroken(sum, file, LogFrames(records)[m])
    ensures var o := ReadFrom(sum, file, 0, None);
            o.records == records[..k] && o.stop.Failure? && Followed(sum, file, o.stop.at, o.stop.walk, o.stop.scan)
  {
    var frames := LogFrames(records);
    LaidIsLog(sum, frames);
    DamagedPart(sum, Log(sum, records), file, frames, m);
    DamageFollowed(sum, Log(sum, records), file, frames, m);
    StopsAtFrame(sum, file, records, k, m, EndBefore(0, frames, m));
  }
}
