/** A version edit as the bytes of a manifest record, and back. */
module EditCodec {
  import opened Entries
  import opened Encoding

  const NUM_LEVELS: nat := 7
  const TRAILER_SIZE: nat := 8

  /** Keys are internal keys as bytes. */
  datatype FileMeta = FileMeta(number: nat, size: nat, smallest: Bytes, largest: Bytes)

  datatype VersionEdit = VersionEdit(
    comparator: Option<Bytes>, logNumber: Option<nat>, prevLogNumber: Option<nat>, nextFileNumber: Option<nat>,
    lastSequence: Option<nat>, compactPointers: seq<(nat, Bytes)>, deleted: set<(nat, nat)>,
        added: seq<(nat, FileMeta)>)

  const Cleared := VersionEdit(None, None, None, None, None, [], {}, [])

  /** One tagged field of the record. */
  datatype Field =
    | Comparator(name: Bytes)
    | LogNumber(number: nat)
    | NextFileNumber(number: nat)
    | LastSequence(number: nat)
    | CompactPointer(level: nat, key: Bytes)
    | DeletedFile(level: nat, number: nat)
    | NewFile(level: nat, meta: FileMeta)
    | PrevLogNumber(number: nat)

  function Tag(f: Field): nat {
    match f
    case Comparator(_) => 1
    case LogNumber(_) => 2
    case NextFileNumber(_) => 3
    case LastSequence(_) => 4
    case CompactPointer(_, _) => 5
    case DeletedFile(_, _) => 6
    case NewFile(_, _) => 7
    case PrevLogNumber(_) => 9
  }

  function Prefixed(b: Bytes): Bytes {
    Varint(|b|) + b
  }

  function Body(f: Field): Bytes {
    match f
    case Comparator(name) => Prefixed(name)
    case CompactPointer(level, key) => Varint(level) + Prefixed(key)
    case DeletedFile(level, number) => Varint(level) + Varint(number)
    case NewFile(level, m) => Varint(level) + Varint(m.number) + Varint(m.size) + Prefixed(m.smallest) +
        Prefixed(m.largest)
    case LogNumber(n) => Varint(n)
    case NextFileNumber(n) => Varint(n)
    case LastSequence(n) => Varint(n)
    case PrevLogNumber(n) => Varint(n)
  }

  function FieldBytes(f: Field): Bytes {
    Varint(Tag(f)) + Body(f)
  }

  /** What the decoder refuses: a level that does not exist, a key too short to
      be an internal key. */
  predicate FieldOk(f: Field) {
    match f
    case CompactPointer(level, key) => level < NUM_LEVELS && |key| >= TRAILER_SIZE
    case DeletedFile(level, _) => level < NUM_LEVELS
    case NewFile(level, m) => level < NUM_LEVELS && |m.smallest| >= TRAILER_SIZE && |m.largest| >= TRAILER_SIZE
    case _ => true
  }

  /** The widths the source's types impose. */
  predicate Fits(f: Field) {
    match f
    case Comparator(name) => |name| < LIMIT_32
    case CompactPointer(level, key) => level < LIMIT_32 && |key| < LIMIT_32
    case DeletedFile(level, number) => level < LIMIT_32 && number < LIMIT_64
    case NewFile(level, m) =>
      level < LIMIT_32 && m.number < LIMIT_64 && m.size < LIMIT_64 && |m.smallest| < LIMIT_32 && |m.largest| < LIMIT_32
    case LogNumber(n) => n < LIMIT_64
    case NextFileNumber(n) => n < LIMIT_64
    case LastSequence(n) => n < LIMIT_64
    case PrevLogNumber(n) => n < LIMIT_64
  }

  /** What a field does to the edit being decoded. */
  function With(e: VersionEdit, f: Field): VersionEdit {
    match f
    case Comparator(name) => e.(comparator := Some(name))
    case LogNumber(n) => e.(logNumber := Some(n))
    case NextFileNumber(n) => e.(nextFileNumber := Some(n))
    case LastSequence(n) => e.(lastSequence := Some(n))
    case CompactPointer(level, key) => e.(compactPointers := e.compactPointers + [(level, key)])
    case DeletedFile(level, n) => e.(deleted := e.deleted + {(level, n)})
    case NewFile(level, m) => e.(added := e.added + [(level, m)])
    case PrevLogNumber(n) => e.(prevLogNumber := Some(n))
  }

  function Gathered(fields: seq<Field>): VersionEdit {
    if fields == [] then Cleared else With(Gathered(fields[..|fields| - 1]), fields[|fields| - 1])
  }

  function FieldsBytes(fields: seq<Field>): Bytes {
    if fields == [] then [] else FieldsBytes(fields[..|fields| - 1]) + FieldBytes(fields[|fields| - 1])
  }

  // ---------------------------------------------------------------- decoding

  datatype Text = Text(bytes: Bytes, next: nat)

  function GetPrefixed(s: Bytes, p: nat): (r: Option<Text>)
    ensures r.Some? ==> p < r.value.next <= |s|
  {
    match GetVarint32(s, p)
    case None => None
    case Some(n) => if n.next + n.value <= |s| then Some(Text(s[n.next..n.next + n.value], n.next + n.value)) else None
  }

  function GetLevel(s: Bytes, p: nat): (r: Option<Number>)
    ensures r.Some? ==> p < r.value.next <= |s|
  {
    match GetVarint32(s, p)
    case None => None
    case Some(n) => if n.value >= NUM_LEVELS then None else Some(n)
  }

  datatype Read = Read(field: Field, next: nat)

  function NumberField(tag: nat, n: nat): Field {
    if tag == 2 then LogNumber(n) else if tag == 3 then NextFileNumber(n) else if tag == 4 then LastSequence(n)
        else PrevLogNumber(n)
  }

  function ReadNumber(s: Bytes, p: nat, tag: nat): Option<Read> {
    match GetVarint64(s, p)
    case None => None
    case Some(n) => Some(Read(NumberField(tag, n.value), n.next))
  }

  function ReadPointer(s: Bytes, p: nat): Option<Read> {
    match GetLevel(s, p)
    case None => None
    case Some(level) =>
      match GetPrefixed(s, level.next)
      case None => None
      case Some(key) =>
        if |key.bytes| < TRAILER_SIZE then None else Some(Read(CompactPointer(level.value, key.bytes), key.next))
  }

  function ReadDeleted(s: Bytes, p: nat): Option<Read> {
    match GetLevel(s, p)
    case None => None
    case Some(level) =>
      match GetVarint64(s, level.next)
      case None => None
      case Some(n) => Some(Read(DeletedFile(level.value, n.value), n.next))
  }

  function ReadKeys(s: Bytes, p: nat, level: nat, number: nat, size: nat): Option<Read> {
    match GetPrefixed(s, p)
    case None => None
    case Some(smallest) =>
      match GetPrefixed(s, smallest.next)
      case None => None
      case Some(largest) =>
        if |smallest.bytes| < TRAILER_SIZE || |largest.bytes| < TRAILER_SIZE then None
        else Some(Read(NewFile(level, FileMeta(number, size, smallest.bytes, largest.bytes)), largest.next))
  }

  function ReadSize(s: Bytes, p: nat, level: nat, number: nat): Option<Read> {
    match GetVarint64(s, p)
    case None => None
    case Some(size) => ReadKeys(s, size.next, level, number, size.value)
  }

  function ReadFileNumber(s: Bytes, p: nat, level: nat): Option<Read> {
    match GetVarint64(s, p)
    case None => None
    case Some(number) => ReadSize(s, number.next, level, number.value)
  }

  function ReadNewFile(s: Bytes, p: nat): Option<Read> {
    match GetLevel(s, p)
    case None => None
    case Some(level) => ReadFileNumber(s, level.next, level.value)
  }

  function ReadComparator(s: Bytes, p: nat): Option<Read> {
    match GetPrefixed(s, p)
    case None => None
    case Some(name) => Some(Read(Comparator(name.bytes), name.next))
  }

  function ReadBody(s: Bytes, p: nat, tag: nat): Option<Read> {
    match tag
    case 1 => ReadComparator(s, p)
    case 5 => ReadPointer(s, p)
    case 6 => ReadDeleted(s, p)
    case 7 => ReadNewFile(s, p)
    case _ => if tag == 2 || tag == 3 || tag == 4 || tag == 9 then ReadNumber(s, p, tag) else None
  }

  /** One field, from whatever bytes are there; None where decoding fails. */
  function ReadField(s: Bytes, p: nat): (r: Option<Read>)
    ensures r.Some? ==> p < r.value.next <= |s| && FieldOk(r.value.field)
  {
    match GetVarint32(s, p)
    case None => None
    case Some(tag) => ReadBody(s, tag.next, tag.value)
  }

  function DecodeAt(s: Bytes, p: nat, e: VersionEdit): Option<VersionEdit>
    requires p <= |s|
    decreases |s| - p
  {
    if p == |s| then Some(e)
    else
      match ReadField(s, p)
      case None => None
      case Some(r) => DecodeAt(s, r.next, With(e, r.field))
  }

  // --------------------------------------------------------------- round trip

  lemma {:induction false} PrefixedReads(s: Bytes, p: nat, b: Bytes)
    requires |b| < LIMIT_32 && Has(s, p, Prefixed(b))
    ensures GetPrefixed(s, p) == Some(Text(b, p + |Prefixed(b)|))
  {
    HasParts(s, p, Varint(|b|), b);
    VarintRoundTrip(s, p, |b|);
    HasSlice(s, p + |Varint(|b|)|, b);
  }

  lemma {:induction false} LevelReads(s: Bytes, p: nat, level: nat)
    requires level < LIMIT_32 && Has(s, p, Varint(level))
    ensures GetLevel(s, p) == if level < NUM_LEVELS then Some(Number(level, p + |Varint(level)|)) else None
  {
    VarintRoundTrip(s, p, level);
  }

  lemma {:induction false} PointerReads(s: Bytes, p: nat, level: nat, key: Bytes)
    requires Fits(CompactPointer(level, key)) && Has(s, p, Varint(level) + Prefixed(key))
    ensures ReadPointer(s, p) == if FieldOk(CompactPointer(level, key))
                                 then Some(Read(CompactPointer(level, key), p + |Varint(level)| + |Prefixed(key)|))
                                     else None
  {
    HasParts(s, p, Varint(level), Prefixed(key));
    LevelReads(s, p, level);
    PrefixedReads(s, p + |Varint(level)|, key);
  }

  lemma {:induction false} DeletedReads(s: Bytes, p: nat, level: nat, number: nat)
    requires Fits(DeletedFile(level, number)) && Has(s, p, Varint(level) + Varint(number))
    ensures ReadDeleted(s, p) == if level < NUM_LEVELS
                                 then Some(Read(DeletedFile(level, number), p + |Varint(level)| + |Varint(number)|))
                                     else None
  {
    HasParts(s, p, Varint(level), Varint(number));
    LevelReads(s, p, level);
    Varint64RoundTrip(s, p + |Varint(level)|, number);
  }

  /** The five parts of a new file, each read where the one before ends. */
  lemma {:induction false} PartsRead(s: Bytes, p: nat, level: nat, m: FileMeta, p1: nat, p2: nat, p3: nat, p4: nat,
                                     p5: nat)
    requires GetLevel(s, p) == if level < NUM_LEVELS then Some(Number(level, p1)) else None
    requires GetVarint64(s, p1) == Some(Number(m.number, p2)) && GetVarint64(s, p2) == Some(Number(m.size, p3))
    requires GetPrefixed(s, p3) == Some(Text(m.smallest, p4)) && GetPrefixed(s, p4) == Some(Text(m.largest, p5))
    ensures ReadNewFile(s, p) == if FieldOk(NewFile(level, m)) then Some(Read(NewFile(level, m), p5)) else None
  {
  }

  lemma {:induction false} NewFileReads(s: Bytes, p: nat, level: nat, m: FileMeta)
    requires Fits(NewFile(level, m)) && Has(s, p, Body(NewFile(level, m)))
    ensures ReadNewFile(s, p) == if FieldOk(NewFile(level, m))
                                 then Some(Read(NewFile(level, m), p + |Body(NewFile(level, m))|)) else None
  {
    var a, b, c, d, e := Varint(level), Varint(m.number), Varint(m.size), Prefixed(m.smallest), Prefixed(m.largest);
    HasFive(s, p, a, b, c, d, e);
    var p1, p2, p3 := p + |a|, p + |a| + |b|, p + |a| + |b| + |c|;
    FiveRead(s, p, level, m, p1, p2, p3, p3 + |d|, p3 + |d| + |e|);
    PartsRead(s, p, level, m, p1, p2, p3, p3 + |d|, p3 + |d| + |e|);
  }

  lemma {:induction false} FiveRead(s: Bytes, p: nat, level: nat, m: FileMeta, p1: nat, p2: nat, p3: nat, p4: nat,
                                    p5: nat)
    requires Fits(NewFile(level, m)) && p1 == p + |Varint(level)| && p2 == p1 + |Varint(m.number)|
    requires p3 == p2 + |Varint(m.size)|
    requires p4 == p3 + |Prefixed(m.smallest)| && p5 == p4 + |Prefixed(m.largest)|
    requires Has(s, p, Varint(level)) && Has(s, p1, Varint(m.number)) && Has(s, p2, Varint(m.size))
    requires Has(s, p3, Prefixed(m.smallest)) && Has(s, p4, Prefixed(m.largest))
    ensures GetLevel(s, p) == if level < NUM_LEVELS then Some(Number(level, p1)) else None
    ensures GetVarint64(s, p1) == Some(Number(m.number, p2)) && GetVarint64(s, p2) == Some(Number(m.size, p3))
    ensures GetPrefixed(s, p3) == Some(Text(m.smallest, p4)) && GetPrefixed(s, p4) == Some(Text(m.largest, p5))
  {
    LevelReads(s, p, level);
    Varint64RoundTrip(s, p1, m.number);
    Varint64RoundTrip(s, p2, m.size);
    PrefixedReads(s, p3, m.smallest);
    PrefixedReads(s, p4, m.largest);
  }

  lemma {:induction false} BodyReads(s: Bytes, p: nat, f: Field)
    requires Fits(f) && Has(s, p, Body(f))
    ensures ReadBody(s, p, Tag(f)) == if FieldOk(f) then Some(Read(f, p + |Body(f)|)) else None
  {
    if f.CompactPointer? || f.DeletedFile? || f.NewFile? {
      FileFieldReads(s, p, f);
    } else if f.Comparator? {
      PrefixedReads(s, p, f.name);
    } else {
      NumberReads(s, p, f);
    }
  }

  lemma {:induction false} FileFieldReads(s: Bytes, p: nat, f: Field)
    requires f.CompactPointer? || f.DeletedFile? || f.NewFile?
    requires Fits(f) && Has(s, p, Body(f))
    ensures ReadBody(s, p, Tag(f)) == if FieldOk(f) then Some(Read(f, p + |Body(f)|)) else None
  {
    match f
    case CompactPointer(level, key) => PointerReads(s, p, level, key);
    case DeletedFile(level, number) => DeletedReads(s, p, level, number);
    case NewFile(level, m) => NewFileReads(s, p, level, m);
  }

  lemma {:induction false} NumberReads(s: Bytes, p: nat, f: Field)
    requires f.LogNumber? || f.NextFileNumber? || f.LastSequence? || f.PrevLogNumber?
    requires Fits(f) && Has(s, p, Varint(f.number))
    ensures ReadNumber(s, p, Tag(f)) == Some(Read(f, p + |Varint(f.number)|))
  {
    Varint64RoundTrip(s, p, f.number);
  }

  /** A written field is read back, unless it is one the decoder refuses. */
  lemma {:induction false} FieldReads(s: Bytes, p: nat, f: Field, next: nat)
    requires Fits(f) && Has(s, p, FieldBytes(f)) && next == p + |FieldBytes(f)|
    ensures ReadField(s, p) == if FieldOk(f) then Some(Read(f, next)) else None
  {
    var tag, body := Tag(f), Body(f);
    TagReads(s, p, tag, body);
    var q := p + |Varint(tag)|;
    BodyReads(s, q, f);
    ReadFieldIs(s, p, tag, q, if FieldOk(f) then Some(Read(f, next)) else None);
  }

  lemma {:induction false} ReadFieldIs(s: Bytes, p: nat, tag: nat, q: nat, r: Option<Read>)
    requires GetVarint32(s, p) == Some(Number(tag, q)) && ReadBody(s, q, tag) == r
    ensures ReadField(s, p) == r
  {
  }

  lemma {:induction false} TagReads(s: Bytes, p: nat, tag: nat, body: Bytes)
    requires tag < LIMIT_32 && Has(s, p, Varint(tag) + body)
    ensures GetVarint32(s, p) == Some(Number(tag, p + |Varint(tag)|)) && Has(s, p + |Varint(tag)|, body)
    ensures |Varint(tag) + body| == |Varint(tag)| + |body|
  {
    HasParts(s, p, Varint(tag), body);
    VarintRoundTrip(s, p, tag);
  }

  lemma {:induction false} DecodeIs(s: Bytes, p: nat, e: VersionEdit, r: Option<Read>)
    requires p < |s| && ReadField(s, p) == r
    ensures DecodeAt(s, p, e) == if r.Some? then DecodeAt(s, r.value.next, With(e, r.value.field)) else None
  {
  }

  /** One field decoded: on to the next with it, or nothing. */
  lemma {:induction false} FieldDecodes(s: Bytes, p: nat, f: Field, ok: bool, e: VersionEdit, next: nat)
    requires p < |s| && ReadField(s, p) == if ok then Some(Read(f, next)) else None
    ensures DecodeAt(s, p, e) == if ok then DecodeAt(s, next, With(e, f)) else None
  {
    DecodeIs(s, p, e, if ok then Some(Read(f, next)) else None);
  }

  ghost predicate AllOk(fields: seq<Field>, from: nat) {
    forall i :: from <= i < |fields| ==> FieldOk(fields[i])
  }

  ghost predicate AllFit(fields: seq<Field>) {
    forall i :: 0 <= i < |fields| ==> Fits(fields[i])
  }

  lemma {:induction false} BytesPrefix(fields: seq<Field>, k: nat)
    requires k <= |fields|
    ensures FieldsBytes(fields[..k]) <= FieldsBytes(fields)
  {
    if k == |fields| {
      assert fields[..k] == fields;
    } else {
      var front := fields[..|fields| - 1];
      BytesPrefix(front, k);
      assert front[..k] == fields[..k];
    }
  }

  lemma HasAfter(s: Bytes, front: Bytes, f: Bytes)
    requires front + f <= s
    ensures Has(s, |front|, f)
  {
    assert s[|front|..|front| + |f|] == (front + f)[|front|..] == f;
  }

  /** Field k lies where the fields before it end. */
  lemma {:induction false} FieldLies(fields: seq<Field>, k: nat)
    requires k < |fields|
    ensures |FieldsBytes(fields[..k + 1])| == |FieldsBytes(fields[..k])| + |FieldBytes(fields[k])|
    ensures Gathered(fields[..k + 1]) == With(Gathered(fields[..k]), fields[k])
    ensures Has(FieldsBytes(fields), |FieldsBytes(fields[..k])|, FieldBytes(fields[k])) && FieldBytes(fields[k]) != []
  {
    assert fields[..k + 1][..k] == fields[..k];
    BytesPrefix(fields, k + 1);
    HasAfter(FieldsBytes(fields), FieldsBytes(fields[..k]), FieldBytes(fields[k]));
    assert Varint(Tag(fields[k])) != [];
  }

  lemma AllOkFrom(fields: seq<Field>, k: nat)
    requires k < |fields|
    ensures AllOk(fields, k) <==> FieldOk(fields[k]) && AllOk(fields, k + 1)
  {
  }

  lemma {:induction false} DecodesFrom(fields: seq<Field>, k: nat)
    requires AllFit(fields) && k <= |fields|
    ensures |FieldsBytes(fields[..k])| <= |FieldsBytes(fields)|
    ensures DecodeAt(FieldsBytes(fields), |FieldsBytes(fields[..k])|, Gathered(fields[..k])) ==
              if AllOk(fields, k) then Some(Gathered(fields)) else None
    decreases |fields| - k
  {
    BytesPrefix(fields, k);
    if k == |fields| {
      assert fields[..k] == fields;
    } else {
      var s, p, next, e := FieldsBytes(fields), |FieldsBytes(fields[..k])|, |FieldsBytes(fields[..k + 1])|,
          Gathered(fields[..k]);
      DecodesFrom(fields, k + 1);
      LiesAndReads(fields, k, s, p, next, e);
      FieldDecodes(s, p, fields[k], FieldOk(fields[k]), e, next);
      AllOkFrom(fields, k);
    }
  }

  lemma {:induction false} LiesAndReads(fields: seq<Field>, k: nat, s: Bytes, p: nat, next: nat, e: VersionEdit)
    requires k < |fields| && Fits(fields[k]) && s == FieldsBytes(fields) && p == |FieldsBytes(fields[..k])|
    requires next == |FieldsBytes(fields[..k + 1])| && e == Gathered(fields[..k])
    ensures p < |s| && ReadField(s, p) == if FieldOk(fields[k]) then Some(Read(fields[k], next)) else None
    ensures Gathered(fields[..k + 1]) == With(e, fields[k])
  {
    FieldLies(fields, k);
    FieldReads(s, p, fields[k], next);
  }

  // ------------------------------------------------------------------ methods

  ghost predicate EditFits(e: VersionEdit) {
    && (e.comparator.Some? ==> Fits(Comparator(e.comparator.value)))
    && (e.logNumber.Some? ==> Fits(LogNumber(e.logNumber.value)))
    && (e.prevLogNumber.Some? ==> Fits(PrevLogNumber(e.prevLogNumber.value)))
    && (e.nextFileNumber.Some? ==> Fits(NextFileNumber(e.nextFileNumber.value)))
    && (e.lastSequence.Some? ==> Fits(LastSequence(e.lastSequence.value)))
    && (forall c :: c in e.compactPointers ==> Fits(CompactPointer(c.0, c.1)))
    && (forall d :: d in e.deleted ==> Fits(DeletedFile(d.0, d.1)))
    && (forall a :: a in e.added ==> Fits(NewFile(a.0, a.1)))
  }

  /** What the decoder accepts of an edit. */
  ghost predicate Acceptable(e: VersionEdit) {
    && (forall c :: c in e.compactPointers ==> FieldOk(CompactPointer(c.0, c.1)))
    && (forall d :: d in e.deleted ==> FieldOk(DeletedFile(d.0, d.1)))
    && (forall a :: a in e.added ==> FieldOk(NewFile(a.0, a.1)))
  }

  /** Fields written so far: what they gather to, and how they lie in dst. */
  ghost predicate Wrote(dst: Bytes, before: Bytes, fields: seq<Field>, e: VersionEdit) {
    dst == before + FieldsBytes(fields) && Gathered(fields) == e && AllFit(fields) &&
        (AllOk(fields, 0) <==> Acceptable(e))
  }

  lemma {:induction false} OneMore(fields: seq<Field>, f: Field)
    ensures FieldsBytes(fields + [f]) == FieldsBytes(fields) + FieldBytes(f)
    ensures Gathered(fields + [f]) == With(Gathered(fields), f)
  {
    assert (fields + [f])[..|fields|] == fields;
  }

  lemma MoreOk(fields: seq<Field>, f: Field)
    requires AllFit(fields) && Fits(f)
    ensures AllFit(fields + [f]) && (AllOk(fields + [f], 0) <==> AllOk(fields, 0) && FieldOk(f))
  {
    var more := fields + [f];
    assert forall i :: 0 <= i < |fields| ==> more[i] == fields[i];
    assert more[|fields|] == f;
  }

  method Put(dst: Bytes, f: Field, ghost before: Bytes, ghost fields: seq<Field>, ghost e: VersionEdit)
    returns (r: Bytes, ghost more: seq<Field>)
    requires Wrote(dst, before, fields, e) && Fits(f)
    ensures Wrote(r, before, more, With(e, f))
  {
    r, more := dst + FieldBytes(f), fields + [f];
    OneMore(fields, f);
    AcceptableWith(e, f);
    MoreOk(fields, f);
    Associates(before, FieldsBytes(fields), FieldBytes(f));
  }

  lemma Associates(a: Bytes, b: Bytes, c: Bytes)
    ensures (a + b) + c == a + (b + c)
  {
  }

  lemma AcceptableWith(e: VersionEdit, f: Field)
    ensures Acceptable(With(e, f)) <==> Acceptable(e) && FieldOk(f)
  {
    var w := With(e, f);
    assert f.CompactPointer? ==> (f.level, f.key) in w.compactPointers;
    assert f.DeletedFile? ==> (f.level, f.number) in w.deleted;
    assert f.NewFile? ==> (f.level, f.meta) in w.added;
    assert forall c :: c in e.compactPointers ==> c in w.compactPointers;
    assert forall a :: a in e.added ==> a in w.added;
  }

  method PutOptional(dst: Bytes, number: Option<nat>, tag: nat, ghost before: Bytes, ghost fields: seq<Field>,
                     ghost e: VersionEdit)
    returns (r: Bytes, ghost more: seq<Field>)
    requires Wrote(dst, before, fields, e) && (number.Some? ==> number.value < LIMIT_64)
    ensures Wrote(r, before, more, if number.Some? then With(e, NumberField(tag, number.value)) else e)
  {
    r, more := dst, fields;
    if number.Some? {
      r, more := Put(dst, NumberField(tag, number.value), before, fields, e);
    }
  }

  /** The record of an edit, after whatever dst holds: fields that gather to
      the edit, acceptable to the decoder exactly when the edit is. */
  method EncodeTo(e: VersionEdit, dst: Bytes) returns (r: Bytes, ghost fields: seq<Field>)
    requires EditFits(e)
    ensures Wrote(r, dst, fields, e)
  {
    r, fields := dst, [];
    ghost var w := Cleared;
    if e.comparator.Some? {
      r, fields := Put(r, Comparator(e.comparator.value), dst, fields, w);
    }
    w := Cleared.(comparator := e.comparator);
    r, fields := PutOptional(r, e.logNumber, 2, dst, fields, w);
    w := w.(logNumber := e.logNumber);
    r, fields := PutOptional(r, e.prevLogNumber, 9, dst, fields, w);
    w := w.(prevLogNumber := e.prevLogNumber);
    r, fields := PutOptional(r, e.nextFileNumber, 3, dst, fields, w);
    w := w.(nextFileNumber := e.nextFileNumber);
    r, fields := PutOptional(r, e.lastSequence, 4, dst, fields, w);
    w := w.(lastSequence := e.lastSequence);
    r, fields := PutPointers(r, e, dst, fields, w);
    w := w.(compactPointers := e.compactPointers);
    r, fields := PutDeleted(r, e, dst, fields, w);
    w := w.(deleted := e.deleted);
    r, fields := PutAdded(r, e, dst, fields, w);
  }

  lemma PointerNext(e: VersionEdit, w: VersionEdit, i: nat)
    requires EditFits(e) && i < |e.compactPointers|
    ensures var f := CompactPointer(e.compactPointers[i].0, e.compactPointers[i].1);
            Fits(f) && With(w.(compactPointers := e.compactPointers[..i]), f) ==
                w.(compactPointers := e.compactPointers[..i + 1])
  {
    var c := e.compactPointers[i];
    assert c in e.compactPointers && e.compactPointers[..i + 1] == e.compactPointers[..i] + [(c.0, c.1)];
  }

  lemma AddedNext(e: VersionEdit, w: VersionEdit, i: nat)
    requires EditFits(e) && i < |e.added|
    ensures var f := NewFile(e.added[i].0, e.added[i].1);
            Fits(f) && With(w.(added := e.added[..i]), f) == w.(added := e.added[..i + 1])
  {
    var a := e.added[i];
    assert a in e.added && e.added[..i + 1] == e.added[..i] + [(a.0, a.1)];
  }

  method PutPointers(dst: Bytes, e: VersionEdit, ghost before: Bytes, ghost fields: seq<Field>, ghost w: VersionEdit)
    returns (r: Bytes, ghost more: seq<Field>)
    requires EditFits(e) && Wrote(dst, before, fields, w) && w.compactPointers == []
    ensures Wrote(r, before, more, w.(compactPointers := e.compactPointers))
  {
    r, more := dst, fields;
    assert w.(compactPointers := e.compactPointers[..0]) == w;
    for i := 0 to |e.compactPointers|
      invariant Wrote(r, before, more, w.(compactPointers := e.compactPointers[..i]))
    {
      var c := e.compactPointers[i];
      PointerNext(e, w, i);
      r, more := Put(r, CompactPointer(c.0, c.1), before, more, w.(compactPointers := e.compactPointers[..i]));
    }
    assert e.compactPointers[..|e.compactPointers|] == e.compactPointers;
  }

  /** The set is walked in some order; any decodes to the same set. */
  method PutDeleted(dst: Bytes, e: VersionEdit, ghost before: Bytes, ghost fields: seq<Field>, ghost w: VersionEdit)
    returns (r: Bytes, ghost more: seq<Field>)
    requires EditFits(e) && Wrote(dst, before, fields, w) && w.deleted == {}
    ensures Wrote(r, before, more, w.(deleted := e.deleted))
  {
    r, more := dst, fields;
    var left := e.deleted;
    assert w.(deleted := e.deleted - left) == w;
    while left != {}
      invariant left <= e.deleted && Wrote(r, before, more, w.(deleted := e.deleted - left))
      decreases |left|
    {
      var d :| d in left;
      assert e.deleted - (left - {d}) == e.deleted - left + {(d.0, d.1)};
      r, more := Put(r, DeletedFile(d.0, d.1), before, more, w.(deleted := e.deleted - left));
      left := left - {d};
    }
    assert e.deleted - left == e.deleted;
  }

  method PutAdded(dst: Bytes, e: VersionEdit, ghost before: Bytes, ghost fields: seq<Field>, ghost w: VersionEdit)
    returns (r: Bytes, ghost more: seq<Field>)
    requires EditFits(e) && Wrote(dst, before, fields, w) && w.added == []
    ensures Wrote(r, before, more, w.(added := e.added))
  {
    r, more := dst, fields;
    assert w.(added := e.added[..0]) == w;
    for i := 0 to |e.added|
      invariant Wrote(r, before, more, w.(added := e.added[..i]))
    {
      var a := e.added[i];
      AddedNext(e, w, i);
      r, more := Put(r, NewFile(a.0, a.1), before, more, w.(added := e.added[..i]));
    }
    assert e.added[..|e.added|] == e.added;
  }

  /** Arbitrary bytes: an edit with real levels and keys long enough to be
      internal keys, or nothing. */
  method DecodeFrom(src: Bytes) returns (r: Option<VersionEdit>)
    ensures r == DecodeAt(src, 0, Cleared)
    ensures r.Some? ==> Acceptable(r.value)
  {
    var p: nat, e := 0, Cleared;
    while p < |src|
      invariant p <= |src| && DecodeAt(src, p, e) == DecodeAt(src, 0, Cleared) && Acceptable(e)
    {
      var field := ReadField(src, p);
      if field.None? {
        return None;
      }
      AcceptableWith(e, field.value.field);
      e, p := With(e, field.value.field), field.value.next;
    }
    r := Some(e);
  }

  /** An edit comes back from its record if and only if the decoder accepts it;
      otherwise decoding reports corruption. */
  method EncodeThenDecode(e: VersionEdit) returns (r: Option<VersionEdit>)
    requires EditFits(e)
    ensures r == Some(e) <==> Acceptable(e)
    ensures r == None <==> !Acceptable(e)
  {
    var record, fields := EncodeTo(e, []);
    DecodesFrom(fields, 0);
    assert fields[..0] == [] && record == FieldsBytes(fields);
    r := DecodeFrom(record);
  }
}
