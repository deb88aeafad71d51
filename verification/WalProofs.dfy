/** What a reader makes of a log that was cut short or damaged.

    A log cut at any byte is read back as exactly the records that were whole
    before the cut.  A log with one fragment whose checksum fails and another
    after it is read back as exactly the records before it, and what follows
    the failure is findable. */
module WalProofs {
  import opened Entries
  import opened Encoding
  import opened WalFormat

  // ------------------------------------------------------------ a written log

  ghost function LogFrames(records: seq<Bytes>): (frames: seq<Frame>)
    ensures Chained(0, frames)
  {
    if records == [] then []
    else
      var front := LogFrames(records[..|records| - 1]);
      FramesChained(EndOf(0, front), records[|records| - 1], true);
      ChainedJoin(0, front, FramesOf(EndOf(0, front), records[|records| - 1], true));
      front + FramesOf(EndOf(0, front), records[|records| - 1], true)
  }

  ghost function Log(sum: Sum, records: seq<Bytes>): Bytes {
    Laid(sum, 0, LogFrames(records))
  }

  ghost predicate HoldsAll(sum: Sum, file: Bytes, frames: seq<Frame>) {
    forall i :: 0 <= i < |frames| ==> Holds(sum, file, frames[i])
  }

  lemma LaidStep(sum: Sum, a: nat, frames: seq<Frame>, m: nat)
    requires Chained(a, frames) && m + 1 == |frames|
    ensures Chained(a, frames[..m]) && Laid(sum, a, frames[..m]) <= Laid(sum, a, frames)
  {
    ChainedPart(a, frames, m);
  }

  lemma {:induction false} LaidPart(sum: Sum, a: nat, frames: seq<Frame>, n: nat)
    requires Chained(a, frames) && n <= |frames|
    ensures Chained(a, frames[..n]) && Laid(sum, a, frames[..n]) <= Laid(sum, a, frames)
    decreases |frames|
  {
    if n == |frames| {
      assert frames[..n] == frames;
    } else {
      var m := |frames| - 1;
      LaidStep(sum, a, frames, m);
      LaidPart(sum, a, frames[..m], n);
      assert frames[..m][..n] == frames[..n];
    }
  }

  /** The log up to frame i: what came before, padding, and the frame. */
  lemma LaidUpTo(sum: Sum, frames: seq<Frame>, i: nat) returns (front: Bytes, pad: Bytes)
    requires Chained(0, frames) && i < |frames|
    ensures |frames[i].payload| < 65536 && front + (pad + frames[i].Bytes(sum)) <= Laid(sum, 0, frames)
    ensures |front| == EndBefore(0, frames, i) && |front| + |pad| == frames[i].at
    ensures pad == Zeros(|pad|)
  {
    var upTo, f := frames[..i + 1], frames[i];
    LaidPart(sum, 0, frames, i + 1);
    ChainedPart(0, upTo, i);
    ChainedPart(0, frames, i);
    assert upTo[..i] == frames[..i];
    assert EndBefore(0, upTo, i) == EndBefore(0, frames, i);
    front, pad := Laid(sum, 0, upTo[..i]), Zeros(f.at - EndBefore(0, frames, i));
    assert Laid(sum, 0, upTo) == front + (pad + f.Bytes(sum));
  }

  /** Frame i is in the log. */
  lemma LaidHolds(sum: Sum, frames: seq<Frame>, i: nat)
    requires Chained(0, frames) && i < |frames|
    ensures Holds(sum, Laid(sum, 0, frames), frames[i])
  {
    var front, pad := LaidUpTo(sum, frames, i);
    LaidLast(Laid(sum, 0, frames), front, pad, frames[i].Bytes(sum));
  }

  /** What lies between frame i and the one before it is zero. */
  lemma LaidPadding(sum: Sum, frames: seq<Frame>, i: nat, q: nat)
    requires Chained(0, frames) && i < |frames| && EndBefore(0, frames, i) <= q < frames[i].at
    ensures q < |Laid(sum, 0, frames)| && Laid(sum, 0, frames)[q] == 0
  {
    var front, pad := LaidUpTo(sum, frames, i);
    LaidLast(Laid(sum, 0, frames), front, pad, frames[i].Bytes(sum));
  }

  lemma LaidLast(log: Bytes, front: Bytes, pad: Bytes, last: Bytes)
    requires front + (pad + last) <= log
    ensures Has(log, |front| + |pad|, last)
    ensures forall q :: |front| <= q < |front| + |pad| ==> log[q] == pad[q - |front|]
  {
    var whole := front + (pad + last);
    assert forall i :: 0 <= i < |last| ==> whole[|front| + |pad| + i] == last[i];
    assert forall q :: |front| <= q < |front| + |pad| ==> whole[q] == pad[q - |front|];
  }

  // ------------------------------------------------------------- one fragment

  lemma SkippedIs(file: Bytes, p: nat)
    requires p <= |file|
    ensures Skipped(file, p) == if Next(p) <= |file| then Next(p) else p
  {
  }

  lemma FrameReads(sum: Sum, file: Bytes, p: nat, f: Frame)
    requires f.Fits() && f.at == Next(p) && Holds(sum, file, f)
    ensures PhysicalAt(sum, file, p) == Record(f.kind, f.payload, f.End())
  {
    HoldsParts(sum, file, f);
    SkippedIs(file, p);
    HeaderReads(sum, file, f);
  }

  /** A file that ends before the frame does: the reader fails there, unless
      nothing of the frame, or of the padding before it, has been begun. */
  lemma CutFrameStops(sum: Sum, file: Bytes, p: nat, f: Frame)
    requires f.Fits() && f.at == Next(p) && p <= |file| < f.End()
    requires f.at + HEADER <= |file| ==> HoldsHeader(file, f)
    ensures !PhysicalAt(sum, file, p).Record?
    ensures PhysicalAt(sum, file, p).Over? <==> |file| == p || |file| == f.at
    ensures var r := PhysicalAt(sum, file, p); r.Failed? ==> p <= r.at <= r.resume
  {
    SkippedIs(file, p);
    var q := Skipped(file, p);
    if Next(p) <= |file| && f.at + HEADER <= |file| {
      assert LengthAt(file, f.at) == |f.payload|;
    }
  }

  // --------------------------------------------------------------- one record

  ghost function StopOf(r: Physical, inside: bool): Stop
    requires !r.Record?
  {
    match r
    case Over => if inside then MidRecord else Clean
    case Failed(at, resume) => StoppedAt(at, resume)
  }

  ghost function Gathered(partial: Option<Bytes>): Bytes {
    if partial.None? then [] else partial.value
  }

  /** Taking a fragment of the kind that can come here. */
  lemma FragmentTaken(sum: Sum, file: Bytes, p: nat, partial: Option<Bytes>, last: bool, r: Physical)
    requires PhysicalAt(sum, file, p) == r && r.Record? && r.kind == KindOf(partial.None?, last)
    ensures ReadFrom(sum, file, p, partial) ==
              if last then ReadFrom(sum, file, r.next, None).With(Gathered(partial) + r.payload)
              else ReadFrom(sum, file, r.next, Some(Gathered(partial) + r.payload))
  {
    assert [] + r.payload == r.payload;
  }

  /** Taking the first fragment of what is left of a record. */
  lemma FirstFragment(sum: Sum, file: Bytes, a: nat, data: Bytes, partial: Option<Bytes>, f: Frame)
    requires f == FirstFrame(a, data, partial.None?) && Holds(sum, file, f)
    ensures ReadFrom(sum, file, a, partial) ==
              if |f.payload| == |data| then ReadFrom(sum, file, f.End(), None).With(Gathered(partial) + f.payload)
              else ReadFrom(sum, file, f.End(), Some(Gathered(partial) + f.payload))
  {
    FrameReads(sum, file, a, f);
    FragmentTaken(sum, file, a, partial, |f.payload| == |data|, Record(f.kind, f.payload, f.End()));
  }

  lemma RestHolds(sum: Sum, file: Bytes, f: Frame, rest: seq<Frame>, n: nat)
    requires n <= |rest| && HoldsAll(sum, file, ([f] + rest)[..n + 1])
    ensures Holds(sum, file, f) && HoldsAll(sum, file, rest[..n])
  {
    var all := ([f] + rest)[..n + 1];
    assert all[0] == f;
    forall i | 0 <= i < n ensures Holds(sum, file, rest[..n][i]) {
      assert rest[..n][i] == all[i + 1];
    }
  }

  lemma {:induction false} RecordReads(sum: Sum, file: Bytes, a: nat, data: Bytes, partial: Option<Bytes>)
    requires HoldsAll(sum, file, FramesOf(a, data, partial.None?))
    ensures ReadFrom(sum, file, a, partial) ==
              ReadFrom(sum, file, EndOf(a, FramesOf(a, data, partial.None?)), None).With(Gathered(partial) + data)
    decreases |FramesOf(a, data, partial.None?)|
  {
    var f := FirstFrame(a, data, partial.None?);
    FirstFragment(sum, file, a, data, partial, f);
    if |f.payload| < |data| {
      var rest := FramesOf(f.End(), data[|f.payload|..], false);
      RestHoldsAll(sum, file, f, rest);
      RecordReads(sum, file, f.End(), data[|f.payload|..], Some(Gathered(partial) + f.payload));
      GatheredWhole(partial, data, f.payload);
      EndOfJoin(a, [f], rest);
    } else {
      assert f.payload == data;
    }
  }

  lemma RestHoldsAll(sum: Sum, file: Bytes, f: Frame, rest: seq<Frame>)
    requires HoldsAll(sum, file, [f] + rest)
    ensures HoldsAll(sum, file, rest)
  {
    assert ([f] + rest)[..|rest| + 1] == [f] + rest;
    RestHolds(sum, file, f, rest, |rest|);
    assert rest[..|rest|] == rest;
  }

  lemma GatheredWhole(partial: Option<Bytes>, data: Bytes, part: Bytes)
    requires part <= data
    ensures Gathered(partial) + part + data[|part|..] == Gathered(partial) + data
  {
    assert data == part + data[|part|..];
    AppendLast(Gathered(partial), part, data[|part|..]);
  }

  lemma StopsHere(sum: Sum, file: Bytes, p: nat, partial: Option<Bytes>)
    requires !PhysicalAt(sum, file, p).Record?
    ensures ReadFrom(sum, file, p, partial) == Outcome([], StopOf(PhysicalAt(sum, file, p), partial.Some?))
  {
  }

  /** A record read up to its fragment j, where the reader stops. */
  lemma {:induction false} RecordStops(sum: Sum, file: Bytes, a: nat, data: Bytes, partial: Option<Bytes>, j: nat,
                                       end: nat)
    requires j < |FramesOf(a, data, partial.None?)| && HoldsAll(sum, file, FramesOf(a, data, partial.None?)[..j])
    requires end == EndBefore(a, FramesOf(a, data, partial.None?), j) && !PhysicalAt(sum, file, end).Record?
    ensures ReadFrom(sum, file, a, partial) == Outcome([], StopOf(PhysicalAt(sum, file, end), partial.Some? || 0 < j))
    decreases j
  {
    if j == 0 {
      StopsHere(sum, file, end, partial);
    } else {
      var f := FirstFrame(a, data, partial.None?);
      var n := |f.payload|;
      var rest := FramesOf(f.End(), data[n..], false);
      RestHolds(sum, file, f, rest, j - 1);
      FirstFragment(sum, file, a, data, partial, f);
      EndsJoin(a, [f], rest, j);
      RecordStops(sum, file, f.End(), data[n..], Some(Gathered(partial) + f.payload), j - 1, end);
    }
  }

  // ------------------------------------------------------------- any bytes at all

  /** From p to q lie verified fragments of one record, of which this is the
      data still to come. */
  ghost predicate RecordAt(sum: Sum, file: Bytes, p: nat, first: bool, data: Bytes, q: nat)
    decreases |file| - p
  {
    var r := PhysicalAt(sum, file, p);
    && r.Record? && r.payload <= data
    && ((r.kind == KindOf(first, true) && r.payload == data && q == r.next) ||
          (r.kind == KindOf(first, false) && RecordAt(sum, file, r.next, false, data[|r.payload|..], q)))
  }

  /** Nothing from p on completes a record. */
  ghost predicate NoRecordAt(sum: Sum, file: Bytes, p: nat, first: bool) {
    forall data, q :: !RecordAt(sum, file, p, first, data, q)
  }

  lemma {:induction false} OneRecordAt(sum: Sum, file: Bytes, p: nat, first: bool, data: Bytes, q: nat, other: Bytes,
                                       o: nat)
    requires RecordAt(sum, file, p, first, data, q) && RecordAt(sum, file, p, first, other, o)
    ensures data == other && q == o
    decreases |file| - p
  {
    var r := PhysicalAt(sum, file, p);
    if r.kind == KindOf(first, false) {
      OneRecordAt(sum, file, r.next, false, data[|r.payload|..], q, other[|r.payload|..], o);
      assert data == r.payload + data[|r.payload|..] && other == r.payload + other[|r.payload|..];
    }
  }

  lemma RecordGoesOn(sum: Sum, file: Bytes, p: nat, first: bool, r: Physical, data: Bytes, q: nat)
    requires r == PhysicalAt(sum, file, p) && r.Record? && r.kind == KindOf(first, false)
    requires RecordAt(sum, file, r.next, false, data, q)
    ensures RecordAt(sum, file, p, first, r.payload + data, q)
  {
    assert (r.payload + data)[|r.payload|..] == data;
  }

  lemma NoRecordHere(sum: Sum, file: Bytes, p: nat, first: bool, r: Physical)
    requires r == PhysicalAt(sum, file, p)
    requires !r.Record? || (r.kind != KindOf(first, true) && r.kind != KindOf(first, false)) ||
               (r.kind == KindOf(first, false) && NoRecordAt(sum, file, r.next, false))
    ensures NoRecordAt(sum, file, p, first)
  {
    forall data, q ensures !RecordAt(sum, file, p, first, data, q) {
      if r.Record? && r.payload <= data {
        assert r.kind == KindOf(first, false) ==> !RecordAt(sum, file, r.next, false, data[|r.payload|..], q);
      }
    }
  }

  /** Reading on from p takes the one record that lies there, or stops because
      none does; cleanly only if there is nothing there. */
  lemma {:induction false} RecordOrStop(sum: Sum, file: Bytes, p: nat, partial: Option<Bytes>)
    returns (found: bool, data: Bytes, q: nat)
    ensures found ==> Takes(sum, file, p, partial, data, q)
    ensures !found ==> StopsAt(sum, file, p, partial)
    decreases |file| - p
  {
    var r := PhysicalAt(sum, file, p);
    found, data, q := false, [], 0;
    if r.Record? && r.kind == KindOf(partial.None?, true) {
      FragmentTaken(sum, file, p, partial, true, r);
      found, data, q := true, r.payload, r.next;
    } else if r.Record? && r.kind == KindOf(partial.None?, false) {
      FragmentTaken(sum, file, p, partial, false, r);
      found, data, q := RecordOrStop(sum, file, r.next, Some(Gathered(partial) + r.payload));
      if found {
        TakesMore(sum, file, p, partial, r, data, q);
        data := r.payload + data;
      } else {
        NoRecordHere(sum, file, p, partial.None?, r);
      }
    } else {
      NoRecordHere(sum, file, p, partial.None?, r);
    }
  }

  ghost predicate Takes(sum: Sum, file: Bytes, p: nat, partial: Option<Bytes>, data: Bytes, q: nat) {
    && RecordAt(sum, file, p, partial.None?, data, q) && p < q <= |file|
    && ReadFrom(sum, file, p, partial) == ReadFrom(sum, file, q, None).With(Gathered(partial) + data)
  }

  ghost predicate StopsAt(sum: Sum, file: Bytes, p: nat, partial: Option<Bytes>) {
    && NoRecordAt(sum, file, p, partial.None?) && ReadFrom(sum, file, p, partial).records == []
    && (ReadFrom(sum, file, p, partial).stop.Clean? <==> partial.None? && PhysicalAt(sum, file, p).Over?)
  }

  lemma TakesMore(sum: Sum, file: Bytes, p: nat, partial: Option<Bytes>, r: Physical, data: Bytes, q: nat)
    requires r == PhysicalAt(sum, file, p) && r.Record? && r.kind == KindOf(partial.None?, false)
    requires Takes(sum, file, r.next, Some(Gathered(partial) + r.payload), data, q)
    requires ReadFrom(sum, file, p, partial) == ReadFrom(sum, file, r.next, Some(Gathered(partial) + r.payload))
    ensures Takes(sum, file, p, partial, r.payload + data, q)
  {
    RecordGoesOn(sum, file, p, partial.None?, r, data, q);
    AppendLast(Gathered(partial), r.payload, data);
  }

  /** These records, and no more, lie one after another from p; the last of them
      ends at `end`. */
  ghost predicate RecordsFrom(sum: Sum, file: Bytes, p: nat, records: seq<Bytes>, end: nat)
    decreases |records|
  {
    if records == [] then end == p && NoRecordAt(sum, file, p, true)
    else exists q :: RecordAt(sum, file, p, true, records[0], q) && RecordsFrom(sum, file, q, records[1..], end)
  }

  /** On any bytes: what is read is every record up to the first place where
      none lies, and the read ends cleanly if and only if nothing is there. */
  lemma {:induction false} ReadsEveryRecord(sum: Sum, file: Bytes, p: nat) returns (end: nat)
    ensures RecordsFrom(sum, file, p, ReadFrom(sum, file, p, None).records, end)
    ensures ReadFrom(sum, file, p, None).stop.Clean? <==> PhysicalAt(sum, file, end).Over?
    decreases |file| - p
  {
    var found, data, q := RecordOrStop(sum, file, p, None);
    end := p;
    if found {
      end := ReadsEveryRecord(sum, file, q);
      var rest := ReadFrom(sum, file, q, None);
      assert [] + data == data;
      assert ([data] + rest.records)[1..] == rest.records;
    }
  }

  // -------------------------------------------------------------- a whole log

  ghost function Joined(records: seq<Bytes>, o: Outcome): Outcome {
    Outcome(records + o.records, o.stop)
  }

  /** Where the first k records end. */
  ghost function LogEnd(records: seq<Bytes>, k: nat): nat
    requires k <= |records|
  {
    EndOf(0, LogFrames(records[..k]))
  }

  ghost function FramesAt(records: seq<Bytes>, k: nat): seq<Frame>
    requires k < |records|
  {
    FramesOf(LogEnd(records, k), records[k], true)
  }

  lemma LogFramesGrow(records: seq<Bytes>, k: nat)
    requires k < |records|
    ensures LogFrames(records[..k + 1]) == LogFrames(records[..k]) + FramesAt(records, k)
    ensures LogEnd(records, k + 1) == EndOf(LogEnd(records, k), FramesAt(records, k))
  {
    assert records[..k + 1][..k] == records[..k];
    EndOfJoin(0, LogFrames(records[..k]), FramesAt(records, k));
  }

  lemma JoinedMore(records: seq<Bytes>, k: nat, whole: Outcome, rest: Outcome)
    requires k < |records| && whole == Joined(records[..k], rest.With([] + records[k]))
    ensures whole == Joined(records[..k + 1], rest)
  {
    assert [] + records[k] == records[k];
    assert records[..k + 1] == records[..k] + [records[k]];
  }

  lemma RecordMoreRead(sum: Sum, file: Bytes, records: seq<Bytes>, k: nat, whole: Outcome)
    requires k < |records| && HoldsAll(sum, file, FramesAt(records, k))
    requires whole == Joined(records[..k], ReadFrom(sum, file, LogEnd(records, k), None))
    ensures whole == Joined(records[..k + 1], ReadFrom(sum, file, LogEnd(records, k + 1), None))
  {
    LogFramesGrow(records, k);
    RecordReads(sum, file, LogEnd(records, k), records[k], None);
    JoinedMore(records, k, whole, ReadFrom(sum, file, LogEnd(records, k + 1), None));
  }

  lemma {:induction false} RecordsRead(sum: Sum, file: Bytes, records: seq<Bytes>, k: nat)
    requires k <= |records| && HoldsAll(sum, file, LogFrames(records[..k]))
    ensures ReadFrom(sum, file, 0, None) == Joined(records[..k], ReadFrom(sum, file, LogEnd(records, k), None))
    decreases k
  {
    if k == 0 {
      assert LogFrames(records[..0]) == [];
    } else {
      LogFramesGrow(records, k - 1);
      HoldsBoth(sum, file, LogFrames(records[..k - 1]), FramesAt(records, k - 1));
      RecordsRead(sum, file, records, k - 1);
      RecordMoreRead(sum, file, records, k - 1, ReadFrom(sum, file, 0, None));
    }
  }

  lemma HoldsBoth(sum: Sum, file: Bytes, x: seq<Frame>, y: seq<Frame>)
    requires HoldsAll(sum, file, x + y)
    ensures HoldsAll(sum, file, x) && HoldsAll(sum, file, y)
  {
    forall i | 0 <= i < |x| ensures Holds(sum, file, x[i]) {
      assert (x + y)[i] == x[i];
    }
    forall i | 0 <= i < |y| ensures Holds(sum, file, y[i]) {
      assert (x + y)[|x| + i] == y[i];
    }
  }

  /** Everything up to fragment j of record k is there, and the reader stops at
      that fragment: it has read exactly the first k records. */
  lemma StopsInRecord(sum: Sum, file: Bytes, records: seq<Bytes>, k: nat, j: nat, end: nat)
    requires k < |records| && j < |FramesAt(records, k)|
    requires HoldsAll(sum, file, LogFrames(records[..k])) && HoldsAll(sum, file, FramesAt(records, k)[..j])
    requires end == EndBefore(LogEnd(records, k), FramesAt(records, k), j) && !PhysicalAt(sum, file, end).Record?
    ensures ReadFrom(sum, file, 0, None) == Outcome(records[..k], StopOf(PhysicalAt(sum, file, end), 0 < j))
  {
    RecordsRead(sum, file, records, k);
    RecordStops(sum, file, LogEnd(records, k), records[k], None, j, end);
  }

  // ------------------------------------------------------------- a cut log

  lemma {:induction false} LogFramesPart(records: seq<Bytes>, k: nat)
    requires k <= |records|
    ensures |LogFrames(records[..k])| <= |LogFrames(records)|
    ensures LogFrames(records[..k]) == LogFrames(records)[..|LogFrames(records[..k])|]
    decreases |records| - k
  {
    if k == |records| {
      assert records[..k] == records;
    } else {
      LogFramesGrow(records, k);
      LogFramesPart(records, k + 1);
      PartOfPart(LogFrames(records[..k]), FramesAt(records, k), LogFrames(records[..k + 1]), LogFrames(records));
    }
  }

  lemma PartOfPart(x: seq<Frame>, y: seq<Frame>, part: seq<Frame>, all: seq<Frame>)
    requires part == x + y && |part| <= |all| && part == all[..|part|]
    ensures |x| <= |all| && x == all[..|x|]
  {
    assert all[..|x|] == part[..|x|];
  }

  lemma InJoined(x: seq<Frame>, y: seq<Frame>, all: seq<Frame>, j: nat)
    requires x + y <= all && j < |y|
    ensures all[|x| + j] == y[j] && EndBefore(0, all, |x| + j) == EndBefore(EndOf(0, x), y, j)
  {
    assert all[|x| + j] == (x + y)[|x| + j] == y[j];
    if 0 < j {
      assert all[|x| + j - 1] == (x + y)[|x| + j - 1] == y[j - 1];
    } else if 0 < |x| {
      assert all[|x| - 1] == (x + y)[|x| - 1] == x[|x| - 1];
    }
  }

  /** The fragments of record k are those from |LogFrames(records[..k])| on. */
  lemma FramesInLog(records: seq<Bytes>, k: nat, j: nat, m: nat)
    requires k < |records| && j < |FramesAt(records, k)| && m == |LogFrames(records[..k])| + j
    ensures m < |LogFrames(records)| && LogFrames(records)[m] == FramesAt(records, k)[j]
    ensures EndBefore(0, LogFrames(records), m) == EndBefore(LogEnd(records, k), FramesAt(records, k), j)
  {
    LogFramesGrow(records, k);
    LogFramesPart(records, k + 1);
    InJoined(LogFrames(records[..k]), FramesAt(records, k), LogFrames(records), j);
  }

  lemma EndsPart(a: nat, frames: seq<Frame>, n: nat, i: nat)
    requires i <= n <= |frames|
    ensures EndBefore(a, frames[..n], i) == EndBefore(a, frames, i)
  {
  }

  lemma {:induction false} EndsGrow(a: nat, frames: seq<Frame>, i: nat, j: nat)
    requires Chained(a, frames) && i <= j <= |frames|
    ensures EndBefore(a, frames, i) <= EndBefore(a, frames, j)
    decreases j - i
  {
    if i < j {
      EndsGrow(a, frames, i, j - 1);
      assert frames[j - 1].at == Next(EndBefore(a, frames, j - 1));
    }
  }

  lemma LogHolds(sum: Sum, frames: seq<Frame>)
    requires Chained(0, frames)
    ensures HoldsAll(sum, Laid(sum, 0, frames), frames)
  {
    forall i | 0 <= i < |frames| ensures Holds(sum, Laid(sum, 0, frames), frames[i]) {
      LaidHolds(sum, frames, i);
    }
  }

  /** Frames that end by c are there in a log cut at c. */
  lemma PartHolds(sum: Sum, log: Bytes, frames: seq<Frame>, n: nat, c: nat)
    requires Chained(0, frames) && HoldsAll(sum, log, frames)
    requires n <= |frames| && EndBefore(0, frames, n) <= c <= |log|
    ensures HoldsAll(sum, log[..c], frames[..n])
  {
    forall i | 0 <= i < n ensures Holds(sum, log[..c], frames[..n][i]) {
      EndsGrow(0, frames, i + 1, n);
      HoldsCut(sum, log, frames[i], c);
    }
  }

  lemma HoldsCut(sum: Sum, log: Bytes, f: Frame, c: nat)
    requires Holds(sum, log, f) && f.End() <= c <= |log|
    ensures Holds(sum, log[..c], f)
  {
  }

  lemma CutStops(sum: Sum, log: Bytes, frames: seq<Frame>, m: nat, c: nat)
    requires Chained(0, frames) && m < |frames| && Holds(sum, log, frames[m])
    requires EndBefore(0, frames, m) <= c < frames[m].End() && c <= |log|
    ensures !PhysicalAt(sum, log[..c], EndBefore(0, frames, m)).Record?
    ensures var r, end := PhysicalAt(sum, log[..c], EndBefore(0, frames, m)), EndBefore(0, frames, m);
            (r.Over? <==> c == end || c == frames[m].at) && (r.Failed? ==> end <= r.at <= r.resume)
  {
    HoldsParts(sum, log, frames[m]);
    HeaderCut(log, frames[m], c);
    CutFrameStops(sum, log[..c], EndBefore(0, frames, m), frames[m]);
  }

  lemma HeaderCut(log: Bytes, f: Frame, c: nat)
    requires HoldsHeader(log, f) && c <= |log|
    ensures f.at + HEADER <= c ==> HoldsHeader(log[..c], f)
  {
  }

  lemma PartsOf(x: seq<Frame>, y: seq<Frame>, all: seq<Frame>, j: nat)
    requires x + y <= all && j <= |y|
    ensures all[..|x| + j] == x + y[..j]
  {
    assert all[..|x| + |y|] == x + y;
  }

  /** The first fragment that ends after c, among those from lo to hi. */
  lemma FirstPast(frames: seq<Frame>, lo: nat, hi: nat, c: nat) returns (m: nat)
    requires lo <= hi <= |frames| && EndBefore(0, frames, lo) <= c < EndBefore(0, frames, hi)
    ensures lo <= m < hi && EndBefore(0, frames, m) <= c < frames[m].End()
  {
    m := lo;
    while frames[m].End() <= c
      invariant lo <= m < hi && EndBefore(0, frames, m) <= c
      decreases hi - m
    {
      m := m + 1;
    }
  }

  /** The log read from its end. */
  lemma NothingLeft(sum: Sum, file: Bytes)
    ensures ReadFrom(sum, file, |file|, None) == Outcome([], Clean)
  {
    SkippedIs(file, |file|);
  }

  /** Where a cut takes nothing of a record: right after the last whole one, or
      after the padding that follows it. */
  ghost predicate BetweenRecords(records: seq<Bytes>, k: nat, c: nat)
    requires k <= |records|
  {
    c == LogEnd(records, k) || c == Next(LogEnd(records, k))
  }

  /** Cutting a written log at any byte leaves exactly the records that end by
      it, whatever their sizes, and the read ends cleanly if and only if the cut
      was between records. */
  lemma CutLog(sum: Sum, records: seq<Bytes>, k: nat, c: nat) returns (stop: Stop)
    requires k <= |records| && LogEnd(records, k) <= c <= |Log(sum, records)|
    requires k < |records| ==> c < LogEnd(records, k + 1)
    ensures ReadFrom(sum, Log(sum, records)[..c], 0, None) == Outcome(records[..k], stop)
    ensures stop.Clean? <==> BetweenRecords(records, k, c)
    ensures stop.Failure? ==> PastWhole(LogFrames(records), c, stop.walk) && PastWhole(LogFrames(records), c, stop.scan)
  {
    if k == |records| {
      stop := CutNowhere(sum, records, c);
    } else {
      stop := CutInRecord(sum, records, k, c);
    }
  }

  lemma CutNowhere(sum: Sum, records: seq<Bytes>, c: nat) returns (stop: Stop)
    requires LogEnd(records, |records|) <= c <= |Log(sum, records)|
    ensures ReadFrom(sum, Log(sum, records)[..c], 0, None) == Outcome(records[..|records|], stop) && stop.Clean?
    ensures c == LogEnd(records, |records|)
  {
    WholeLog(sum, records);
    var log := Log(sum, records);
    assert log[..c] == log;
    stop := Clean;
  }

  lemma WholeLog(sum: Sum, records: seq<Bytes>)
    ensures ReadFrom(sum, Log(sum, records), 0, None) == Outcome(records[..|records|], Clean)
    ensures LogEnd(records, |records|) == |Log(sum, records)|
  {
    var file := Log(sum, records);
    assert records[..|records|] == records;
    LogHolds(sum, LogFrames(records));
    RecordsRead(sum, file, records, |records|);
    NothingLeft(sum, file);
  }

  lemma RecordParts(sum: Sum, file: Bytes, records: seq<Bytes>, k: nat, j: nat, m: nat)
    requires k < |records| && j < |FramesAt(records, k)|
    requires m == |LogFrames(records[..k])| + j <= |LogFrames(records)|
    requires HoldsAll(sum, file, LogFrames(records)[..m])
    ensures HoldsAll(sum, file, LogFrames(records[..k])) && HoldsAll(sum, file, FramesAt(records, k)[..j])
  {
    LogFramesGrow(records, k);
    LogFramesPart(records, k + 1);
    PartsOf(LogFrames(records[..k]), FramesAt(records, k), LogFrames(records), j);
    HoldsBoth(sum, file, LogFrames(records[..k]), FramesAt(records, k)[..j]);
  }

  /** How many fragments the first k records make. */
  ghost function Count(records: seq<Bytes>, k: nat): nat
    requires k <= |records|
  {
    |LogFrames(records[..k])|
  }

  lemma CountEnds(records: seq<Bytes>, k: nat)
    requires k <= |records|
    ensures Count(records, k) <= |LogFrames(records)|
    ensures LogEnd(records, k) == EndBefore(0, LogFrames(records), Count(records, k))
  {
    LogFramesPart(records, k);
    EndsPart(0, LogFrames(records), Count(records, k), Count(records, k));
  }

  lemma CountGrows(records: seq<Bytes>, k: nat)
    requires k < |records|
    ensures Count(records, k + 1) == Count(records, k) + |FramesAt(records, k)|
  {
    LogFramesGrow(records, k);
  }

  /** The first m fragments are there, the last of them in record k, and the
      reader stops at the next: it has read exactly the first k records. */
  lemma StopsAtFrame(sum: Sum, file: Bytes, records: seq<Bytes>, k: nat, m: nat, end: nat)
    requires k < |records| && Count(records, k) <= m < Count(records, k + 1) && m < |LogFrames(records)|
    requires HoldsAll(sum, file, LogFrames(records)[..m])
    requires end == EndBefore(0, LogFrames(records), m) && !PhysicalAt(sum, file, end).Record?
    ensures ReadFrom(sum, file, 0, None) == Outcome(records[..k],
        StopOf(PhysicalAt(sum, file, end), Count(records, k) < m))
  {
    var j := m - Count(records, k);
    CountGrows(records, k);
    FramesInLog(records, k, j, m);
    RecordParts(sum, file, records, k, j, m);
    StopsInRecord(sum, file, records, k, j, end);
  }

  /** What a cut inside record k is read as. */
  lemma CutInRecord(sum: Sum, records: seq<Bytes>, k: nat, c: nat) returns (stop: Stop)
    requires k < |records| && LogEnd(records, k) <= c < LogEnd(records, k + 1) && c <= |Log(sum, records)|
    ensures ReadFrom(sum, Log(sum, records)[..c], 0, None) == Outcome(records[..k], stop)
    ensures stop.Clean? <==> BetweenRecords(records, k, c)
    ensures stop.Failure? ==> PastWhole(LogFrames(records), c, stop.walk) && PastWhole(LogFrames(records), c, stop.scan)
  {
    var m := CutFrame(records, k, c);
    var r := CutReads(sum, records, k, c, m);
    CutIsClean(LogFrames(records), Count(records, k), m, c, r);
    stop := StopOf(r, Count(records, k) < m);
    if r.Failed? {
      PastTheCut(LogFrames(records), m, c, r.resume);
      PastTheCut(LogFrames(records), m, c, stop.scan);
    }
  }

  /** Past every fragment that was there in full. */
  ghost predicate PastWhole(frames: seq<Frame>, c: nat, p: nat) {
    forall i :: 0 <= i < |frames| && frames[i].End() <= c ==> frames[i].End() <= p
  }

  lemma PastTheCut(frames: seq<Frame>, m: nat, c: nat, p: nat)
    requires Chained(0, frames) && m < |frames| && c < frames[m].End() && EndBefore(0, frames, m) <= p
    ensures PastWhole(frames, c, p)
  {
    forall i | 0 <= i < |frames| && frames[i].End() <= c ensures frames[i].End() <= p {
      if i < m {
        EndsGrow(0, frames, i + 1, m);
      } else {
        EndsGrow(0, frames, m + 1, i + 1);
      }
    }
  }

  ghost predicate InFrame(records: seq<Bytes>, k: nat, c: nat, m: nat)
    requires k < |records|
  {
    && Count(records, k) <= m < Count(records, k + 1) && m < |LogFrames(records)|
    && EndBefore(0, LogFrames(records), m) <= c < LogFrames(records)[m].End()
    && LogEnd(records, k) == EndBefore(0, LogFrames(records), Count(records, k))
  }

  lemma CutReads(sum: Sum, records: seq<Bytes>, k: nat, c: nat, m: nat) returns (r: Physical)
    requires k < |records| && c <= |Log(sum, records)| && InFrame(records, k, c, m)
    ensures !r.Record? && ReadFrom(sum, Log(sum, records)[..c], 0, None) ==
              Outcome(records[..k], StopOf(r, Count(records, k) < m))
    ensures r.Over? <==> c == EndBefore(0, LogFrames(records), m) || c == LogFrames(records)[m].at
    ensures r.Failed? ==> EndBefore(0, LogFrames(records), m) <= r.at <= r.resume
  {
    var end := EndBefore(0, LogFrames(records), m);
    CutAtFrame(sum, Log(sum, records), LogFrames(records), m, c);
    StopsAtFrame(sum, Log(sum, records)[..c], records, k, m, end);
    r := PhysicalAt(sum, Log(sum, records)[..c], end);
  }

  lemma CutIsClean(frames: seq<Frame>, n: nat, m: nat, c: nat, r: Physical)
    requires Chained(0, frames) && n <= m < |frames| && EndBefore(0, frames, m) <= c && !r.Record?
    requires r.Over? <==> c == EndBefore(0, frames, m) || c == frames[m].at
    ensures StopOf(r, n < m).Clean? <==> c == EndBefore(0, frames, n) || c == Next(EndBefore(0, frames, n))
  {
    CutPlace(frames, n, m, c);
    var last := EndBefore(0, frames, n);
    StopIsClean(r, n < m, c, EndBefore(0, frames, m), frames[m].at, last, Next(last));
  }

  /** A stop is clean at the end of the records before, or of the padding. */
  lemma StopIsClean(r: Physical, inside: bool, c: nat, end: nat, at: nat, last: nat, padded: nat)
    requires !r.Record? && last <= padded && (r.Over? <==> c == end || c == at)
    requires if inside then padded < c else end == last && at == padded
    ensures StopOf(r, inside).Clean? <==> c == last || c == padded
  {
  }

  /** The fragment of record k that a cut at c falls in. */
  lemma CutFrame(records: seq<Bytes>, k: nat, c: nat) returns (m: nat)
    requires k < |records| && LogEnd(records, k) <= c < LogEnd(records, k + 1)
    ensures InFrame(records, k, c, m)
  {
    CountEnds(records, k);
    CountEnds(records, k + 1);
    CountGrows(records, k);
    m := FirstPast(LogFrames(records), Count(records, k), Count(records, k + 1), c);
  }

  /** Past the first fragment of a record, a cut is not between records. */
  lemma CutPlace(frames: seq<Frame>, n: nat, m: nat, c: nat)
    requires Chained(0, frames) && n <= m < |frames| && EndBefore(0, frames, m) <= c
    ensures frames[m].at == Next(EndBefore(0, frames, m))
    ensures n < m ==> Next(EndBefore(0, frames, n)) < c
    ensures EndBefore(0, frames, n) <= Next(EndBefore(0, frames, n))
  {
    if n < m {
      assert frames[n].at == Next(EndBefore(0, frames, n));
      EndsGrow(0, frames, n + 1, m);
    }
  }

  lemma CutAtFrame(sum: Sum, log: Bytes, frames: seq<Frame>, m: nat, c: nat)
    requires Chained(0, frames) && log == Laid(sum, 0, frames) && m < |frames|
    requires EndBefore(0, frames, m) <= c < frames[m].End() && c <= |log|
    ensures HoldsAll(sum, log[..c], frames[..m])
    ensures !PhysicalAt(sum, log[..c], EndBefore(0, frames, m)).Record?
    ensures var r, end := PhysicalAt(sum, log[..c], EndBefore(0, frames, m)), EndBefore(0, frames, m);
            (r.Over? <==> c == end || c == frames[m].at) && (r.Failed? ==> end <= r.at <= r.resume)
  {
    LogHolds(sum, frames);
    PartHolds(sum, log, frames, m, c);
    CutStops(sum, log, frames, m, c);
  }

  lemma LogEnds(sum: Sum, records: seq<Bytes>)
    ensures LogEnd(records, 0) == 0 && LogEnd(records, |records|) == |Log(sum, records)|
  {
    assert records[..0] == [] && records[..|records|] == records;
  }

  lemma LastAtMost(ends: seq<nat>, c: nat) returns (k: nat)
    requires ends != [] && ends[0] <= c
    ensures k < |ends| && ends[k] <= c && (k + 1 < |ends| ==> c < ends[k + 1])
  {
    k := |ends| - 1;
    while c < ends[k]
      invariant k < |ends| && (k + 1 < |ends| ==> c < ends[k + 1])
      decreases k
    {
      k := k - 1;
    }
  }

  /** There is exactly one such k for every cut. */
  lemma CutExists(sum: Sum, records: seq<Bytes>, c: nat) returns (k: nat)
    requires c <= |Log(sum, records)|
    ensures k <= |records| && LogEnd(records, k) <= c && (k < |records| ==> c < LogEnd(records, k + 1))
  {
    LogEnds(sum, records);
    k := LastAtMost(seq(|records| + 1, i requires 0 <= i <= |records| => LogEnd(records, i)), c);
  }
}
