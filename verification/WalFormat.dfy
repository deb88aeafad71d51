/** The write-ahead log: records cut into checksummed fragments that never
    cross a block boundary, and what a reader makes of any bytes at all.

    The checksum is any function to four bytes; CRC32C of section 12.1 of
    RFC 3720 is one.  Positions are offsets in the file. */
module WalFormat {
  import opened Keys
  import opened Entries
  import opened Encoding

  const BLOCK: nat := 32768
  const HEADER: nat := 7

  const FULL: Byte := 1
  const FIRST: Byte := 2
  const MIDDLE: Byte := 3
  const LAST: Byte := 4

  type Word = w: Bytes | |w| == 4 witness [0, 0, 0, 0]
  type Sum = Bytes -> Word

  // ----------------------------------------------------------------- writing

  /** A physical record and where it lies. */
  datatype Frame = Frame(at: nat, kind: Byte, payload: Bytes)
  {
    function End(): nat {
      at + HEADER + |payload|
    }

    /** Inside one block, and of a kind that is written. */
    ghost predicate Fits() {
      at % BLOCK + HEADER + |payload| <= BLOCK && FULL <= kind <= LAST
    }

    function Bytes(sum: Sum): Bytes
      requires |payload| < 65536
    {
      sum([kind] + payload) + [|payload| % 256, |payload| / 256, kind] + payload
    }
  }

  /** Where the next header goes: fewer than seven bytes left in a block are
      padding. */
  function Next(p: nat): (q: nat)
    ensures p <= q < p + HEADER && q % BLOCK + HEADER <= BLOCK
  {
    if BLOCK - p % BLOCK < HEADER then p + (BLOCK - p % BLOCK) else p
  }

  function KindOf(first: bool, last: bool): Byte {
    if first && last then FULL else if first then FIRST else if last then LAST else MIDDLE
  }

  function Fragment(at: nat, left: nat): (n: nat)
    requires at % BLOCK + HEADER <= BLOCK
    ensures n <= left && at % BLOCK + HEADER + n <= BLOCK
  {
    var available := BLOCK - at % BLOCK - HEADER;
    if left < available then left else available
  }

  function FirstFrame(a: nat, data: Bytes, first: bool): (f: Frame)
    ensures f.at == Next(a) && |f.payload| <= |data| && f.payload == data[..|f.payload|]
    ensures f.kind == KindOf(first, |f.payload| == |data|)
    ensures f.Fits()
  {
    var n := Fragment(Next(a), |data|);
    Frame(Next(a), KindOf(first, n == |data|), data[..n])
  }

  /** The fragments of one record written at a.  A first fragment is empty when
      exactly a header's room is left. */
  function FramesOf(a: nat, data: Bytes, first: bool): (frames: seq<Frame>)
    ensures frames != [] && frames[0] == FirstFrame(a, data, first)
    decreases |data|, if BLOCK - Next(a) % BLOCK == HEADER then 1 else 0
  {
    var f := FirstFrame(a, data, first);
    if |f.payload| == |data| then [f] else [f] + FramesOf(f.End(), data[|f.payload|..], false)
  }

  ghost function Zeros(n: nat): (z: Bytes)
    ensures |z| == n && forall i :: 0 <= i < n ==> z[i] == 0
  {
    seq(n, _ => 0)
  }

  /** Where the first i frames, written from a, leave off. */
  ghost function EndBefore(a: nat, frames: seq<Frame>, i: nat): nat
    requires i <= |frames|
  {
    if i == 0 then a else frames[i - 1].End()
  }

  /** Each frame is where the one before it leaves off. */
  ghost predicate Chained(a: nat, frames: seq<Frame>) {
    && (forall i :: 0 <= i < |frames| ==> frames[i].Fits())
    && (forall i {:trigger EndBefore(a, frames, i)} :: 0 <= i < |frames| ==>
        frames[i].at == Next(EndBefore(a, frames, i)))
  }

  ghost function EndOf(a: nat, frames: seq<Frame>): nat {
    EndBefore(a, frames, |frames|)
  }

  lemma ChainedPart(a: nat, frames: seq<Frame>, n: nat)
    requires Chained(a, frames) && n <= |frames|
    ensures Chained(a, frames[..n]) && EndOf(a, frames[..n]) == EndBefore(a, frames, n)
    ensures Chained(EndBefore(a, frames, n), frames[n..])
  {
    forall i | 0 <= i < n ensures EndBefore(a, frames[..n], i) == EndBefore(a, frames, i) {
    }
    forall i | 0 <= i < |frames| - n
      ensures EndBefore(EndBefore(a, frames, n), frames[n..], i) == EndBefore(a, frames, n + i) {
    }
  }

  lemma EndsJoin(a: nat, x: seq<Frame>, y: seq<Frame>, i: nat)
    requires i <= |x| + |y|
    ensures EndBefore(a, x + y, i) == if i <= |x| then EndBefore(a, x, i) else EndBefore(EndOf(a, x), y, i - |x|)
  {
  }

  lemma EndOfJoin(a: nat, x: seq<Frame>, y: seq<Frame>)
    ensures EndOf(a, x + y) == EndOf(EndOf(a, x), y)
  {
    assert y != [] ==> (x + y)[|x + y| - 1] == y[|y| - 1];
    assert y == [] ==> x + y == x;
  }

  lemma ChainedJoin(a: nat, x: seq<Frame>, y: seq<Frame>)
    requires Chained(a, x) && Chained(EndOf(a, x), y)
    ensures Chained(a, x + y) && EndOf(a, x + y) == EndOf(EndOf(a, x), y)
  {
    forall i | 0 <= i < |x + y| ensures (x + y)[i].at == Next(EndBefore(a, x + y, i)) {
      EndsJoin(a, x, y, i);
      if |x| <= i {
        assert y[i - |x|].at == Next(EndBefore(EndOf(a, x), y, i - |x|));
      }
    }
    EndOfJoin(a, x, y);
  }

  /** The bytes appended at a: each frame after its padding. */
  ghost function Laid(sum: Sum, a: nat, frames: seq<Frame>): (b: Bytes)
    requires Chained(a, frames)
    ensures a + |b| == EndOf(a, frames)
    decreases |frames|
  {
    if frames == [] then []
    else
      var n := |frames| - 1;
      ChainedPart(a, frames, n);
      Laid(sum, a, frames[..n]) + (Zeros(frames[n].at - EndBefore(a, frames, n)) + frames[n].Bytes(sum))
  }

  lemma {:induction false} FramesChained(a: nat, data: Bytes, first: bool)
    ensures Chained(a, FramesOf(a, data, first))
    decreases |data|, if BLOCK - Next(a) % BLOCK == HEADER then 1 else 0
  {
    var f := FirstFrame(a, data, first);
    if |f.payload| != |data| {
      FramesChained(f.End(), data[|f.payload|..], false);
      ChainedJoin(a, [f], FramesOf(f.End(), data[|f.payload|..], false));
    }
  }

  /** A record is cut only where a block ends: every fragment but its last fills
      its block, and together they are the record. */
  lemma {:induction false} FragmentsFill(a: nat, data: Bytes, first: bool)
    ensures var frames := FramesOf(a, data, first);
            && (forall i :: 0 <= i < |frames| - 1 ==> frames[i].End() % BLOCK == 0)
            && Payloads(frames) == data
    decreases |data|, if BLOCK - Next(a) % BLOCK == HEADER then 1 else 0
  {
    var f := FirstFrame(a, data, first);
    if |f.payload| == |data| {
      assert [f][..0] == [] && Payloads([]) == [];
      assert f.payload == data;
    } else {
      var rest := FramesOf(f.End(), data[|f.payload|..], false);
      FragmentsFill(f.End(), data[|f.payload|..], false);
      FillsBlock(a, data, first);
      PayloadsFirst(f, rest);
    }
  }

  ghost function Payloads(frames: seq<Frame>): Bytes {
    if frames == [] then [] else Payloads(frames[..|frames| - 1]) + frames[|frames| - 1].payload
  }

  lemma {:induction false} PayloadsFirst(f: Frame, rest: seq<Frame>)
    ensures Payloads([f] + rest) == f.payload + Payloads(rest)
    decreases |rest|
  {
    if rest == [] {
      assert [f] + rest == [f] && [f][..0] == [];
    } else {
      var all, n := [f] + rest, |rest| - 1;
      PayloadsFirst(f, rest[..n]);
      assert all[..n + 1] == [f] + rest[..n] && all[n + 1] == rest[n];
      AppendLast(f.payload, Payloads(rest[..n]), rest[n].payload);
    }
  }

  lemma AppendLast(a: Bytes, b: Bytes, c: Bytes)
    ensures (a + b) + c == a + (b + c)
  {
  }

  lemma FillsBlock(a: nat, data: Bytes, first: bool)
    requires |FirstFrame(a, data, first).payload| != |data|
    ensures FirstFrame(a, data, first).End() % BLOCK == 0
  {
    var at := Next(a);
    assert FirstFrame(a, data, first).End() == at + (BLOCK - at % BLOCK);
  }

  // ----------------------------------------------------------------- reading

  function BlockStart(p: nat): nat {
    p - p % BLOCK
  }

  function BlockEnd(file: Bytes, p: nat): nat {
    if BlockStart(p) + BLOCK <= |file| then BlockStart(p) + BLOCK else |file|
  }

  function LengthAt(file: Bytes, p: nat): nat
    requires p + HEADER <= |file|
  {
    file[p + 4] as int + 256 * (file[p + 5] as int)
  }

  predicate Zeroed(file: Bytes, p: nat)
    requires p + HEADER <= |file|
  {
    forall i :: p <= i < p + HEADER ==> file[i] == 0
  }

  predicate SumMatches(sum: Sum, file: Bytes, p: nat)
    requires p + HEADER <= |file| && p + HEADER + LengthAt(file, p) <= |file|
  {
    file[p..p + 4] == sum([file[p + 6]] + file[p + HEADER..p + HEADER + LengthAt(file, p)])
  }

  /** What read_physical_record finds at p.  A failure carries the position of
      the failed header and where a walk past it would resume. */
  datatype Physical = Record(kind: Byte, payload: Bytes, next: nat) | Failed(at: nat, resume: nat) | Over

  function HeaderAt(sum: Sum, file: Bytes, p: nat): (r: Physical)
    ensures r.Record? ==> p < r.next <= |file|
  {
    var end := BlockEnd(file, p);
    if p + HEADER > end then if p < end then Failed(p, end) else Over
    else if Zeroed(file, p) then Failed(p, p)
    else if p + HEADER + LengthAt(file, p) > end then Failed(p, end)
    else if !SumMatches(sum, file, p) then Failed(p, p + HEADER + LengthAt(file, p))
    else Record(file[p + 6], file[p + HEADER..p + HEADER + LengthAt(file, p)], p + HEADER + LengthAt(file, p))
  }

  /** The rest of a full block too short for a header is skipped. */
  function Skipped(file: Bytes, p: nat): (q: nat)
    ensures p <= q
  {
    if p + HEADER > BlockEnd(file, p) && BlockEnd(file, p) == BlockStart(p) + BLOCK then BlockEnd(file, p) else p
  }

  function PhysicalAt(sum: Sum, file: Bytes, p: nat): (r: Physical)
    ensures r.Record? ==> p < r.next <= |file|
  {
    HeaderAt(sum, file, Skipped(file, p))
  }

  /** How a whole read ends: tidily, in the middle of a record, or at a failure
      with a walk and a byte search to follow. */
  datatype Stop = Clean | MidRecord | Failure(at: nat, walk: nat, scan: nat)

  datatype Outcome = Outcome(records: seq<Bytes>, stop: Stop)
  {
    function With(record: Bytes): Outcome {
      Outcome([record] + records, stop)
    }
  }

  function StoppedAt(at: nat, resume: nat): Stop {
    Failure(at, resume, if resume < at + 1 then resume else at + 1)
  }

  /** A fragment that verified but cannot come here: the search begins at it. */
  function Unexpected(r: Physical): Outcome
    requires r.Record? && HEADER + |r.payload| <= r.next
  {
    var at := r.next - HEADER - |r.payload|;
    Outcome([], Failure(at, at, at))
  }

  /** Every record read from p on, and the stop.  `partial` is what has been
      gathered of a fragmented record. */
  function ReadFrom(sum: Sum, file: Bytes, p: nat, partial: Option<Bytes>): Outcome
    decreases |file| - p
  {
    match PhysicalAt(sum, file, p)
    case Over => Outcome([], if partial.None? then Clean else MidRecord)
    case Failed(at, resume) => Outcome([], StoppedAt(at, resume))
    case Record(kind, payload, next) =>
      if partial.None? then
        if kind == FULL then ReadFrom(sum, file, next, None).With(payload)
        else if kind == FIRST then ReadFrom(sum, file, next, Some(payload))
        else Unexpected(Record(kind, payload, next))
      else
        if kind == MIDDLE then ReadFrom(sum, file, next, Some(partial.value + payload))
        else if kind == LAST then ReadFrom(sum, file, next, None).With(partial.value + payload)
        else Unexpected(Record(kind, payload, next))
  }

  // ------------------------------------------------- a frame is read as written

  ghost predicate Holds(sum: Sum, file: Bytes, f: Frame) {
    |f.payload| < 65536 && Has(file, f.at, f.Bytes(sum))
  }

  /** The frame's header is at its place, whatever became of the rest. */
  ghost predicate HoldsHeader(file: Bytes, f: Frame) {
    && f.at + HEADER <= |file|
    && file[f.at + 4] == |f.payload| % 256 && |f.payload| < 65536 && file[f.at + 5] == |f.payload| / 256
  }

  lemma HoldsParts(sum: Sum, file: Bytes, f: Frame)
    requires Holds(sum, file, f)
    ensures HoldsHeader(file, f) && f.End() <= |file| && file[f.at + 6] == f.kind
    ensures Has(file, f.at, sum([f.kind] + f.payload)) && Has(file, f.at + HEADER, f.payload)
  {
    var s := sum([f.kind] + f.payload);
    var h: Bytes := [|f.payload| % 256, |f.payload| / 256, f.kind];
    HasParts(file, f.at, s + h, f.payload);
    HasParts(file, f.at, s, h);
    assert file[f.at + 4 + 0] == h[0] && file[f.at + 4 + 1] == h[1] && file[f.at + 4 + 2] == h[2];
  }

  lemma HeaderReads(sum: Sum, file: Bytes, f: Frame)
    requires Holds(sum, file, f) && f.Fits()
    ensures HeaderAt(sum, file, f.at) == Record(f.kind, f.payload, f.End())
  {
    HoldsParts(sum, file, f);
    HasSlice(file, f.at, sum([f.kind] + f.payload));
    HasSlice(file, f.at + HEADER, f.payload);
    assert LengthAt(file, f.at) == |f.payload|;
    assert f.End() <= BlockEnd(file, f.at);
    assert file[f.at + 6] != 0;
  }
}
