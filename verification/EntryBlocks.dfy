/** Blocks of entries: internal keys as bytes, the comparator that orders them,
    and the search of a block told in entries. */
module EntryBlocks {
  import opened Keys
  import opened Entries
  import opened Encoding
  import opened BlockFormat
  import opened BlockReaders
  import TwoLevel

  const TRAILER_SIZE: nat := 8

  // ------------------------------------------------------------ internal keys

  function Fixed64(value: nat): Bytes
    requires value < LIMIT_64
  {
    Fixed32(value % LIMIT_32) + Fixed32(value / LIMIT_32)
  }

  function GetFixed64(s: Bytes, p: nat): nat
    requires p + 8 <= |s|
  {
    GetFixed32(s, p) + LIMIT_32 * GetFixed32(s, p + 4)
  }

  lemma Fixed64RoundTrip(s: Bytes, p: nat, value: nat)
    requires value < LIMIT_64 && Has(s, p, Fixed64(value))
    ensures GetFixed64(s, p) == value
  {
    HasParts(s, p, Fixed32(value % LIMIT_32), Fixed32(value / LIMIT_32));
    Fixed32RoundTrip(s, p, value % LIMIT_32);
    Fixed32RoundTrip(s, p + 4, value / LIMIT_32);
  }

  function KeyBytes(k: InternalKey): Bytes
    requires k.sequence <= MAX_SEQUENCE
  {
    k.user + Fixed64(Trailer(k))
  }

  function UserPart(key: Bytes): UserKey
    requires TRAILER_SIZE <= |key|
  {
    key[..|key| - TRAILER_SIZE]
  }

  function TrailerPart(key: Bytes): nat
    requires TRAILER_SIZE <= |key|
  {
    GetFixed64(key, |key| - TRAILER_SIZE)
  }

  lemma KeyParts(k: InternalKey)
    requires k.sequence <= MAX_SEQUENCE
    ensures |KeyBytes(k)| == |k.user| + TRAILER_SIZE
    ensures UserPart(KeyBytes(k)) == k.user && TrailerPart(KeyBytes(k)) == Trailer(k)
  {
    var b, t := KeyBytes(k), Fixed64(Trailer(k));
    assert forall i :: 0 <= i < |t| ==> b[|k.user| + i] == t[i];
    Fixed64RoundTrip(b, |k.user|, Trailer(k));
  }

  /** parse_internal_key: None where the bytes are no internal key. */
  function ParseKey(key: Bytes): Option<InternalKey> {
    if |key| < TRAILER_SIZE then None
    else
      var trailer := TrailerPart(key);
      if trailer % 256 == 1 then Some(InternalKey(UserPart(key), trailer / 256, Value))
      else if trailer % 256 == 0 then Some(InternalKey(UserPart(key), trailer / 256, Deletion))
      else None
  }

  lemma ParseRoundTrip(k: InternalKey)
    requires k.sequence <= MAX_SEQUENCE
    ensures ParseKey(KeyBytes(k)) == Some(k)
  {
    KeyParts(k);
  }

  /** compare_internal_keys on the bytes.  Keys without a trailer are refused by
      the block reader before it compares them. */
  function CompareBytes(a: Bytes, b: Bytes): int {
    if |a| < TRAILER_SIZE || |b| < TRAILER_SIZE then 0
    else
      var byUser := Compare(UserPart(a), UserPart(b));
      if byUser != 0 then byUser
      else if TrailerPart(a) > TrailerPart(b) then -1
      else if TrailerPart(a) < TrailerPart(b) then 1
      else 0
  }

  ghost function PlaceOf(key: Bytes): Place {
    if |key| < TRAILER_SIZE then Place(0.0, 0) else Place(Rank(UserPart(key)), 0 - TrailerPart(key))
  }

  /** The engine's comparator is an order of the keys that have a trailer. */
  lemma InternalOrders()
    ensures Orders(CompareBytes, PlaceOf, TRAILER_SIZE)
  {
    forall a: Bytes, b: Bytes | TRAILER_SIZE <= |a| && TRAILER_SIZE <= |b|
      ensures CompareBytes(a, b) < 0 <==> Below(PlaceOf(a), PlaceOf(b))
      ensures CompareBytes(a, b) > 0 <==> Below(PlaceOf(b), PlaceOf(a))
    {
      RankIsLexicographic(UserPart(a), UserPart(b));
    }
  }

  /** It orders encoded keys as the keys are ordered. */
  lemma PlaceIsOrder(a: InternalKey, b: InternalKey)
    requires a.sequence <= MAX_SEQUENCE && b.sequence <= MAX_SEQUENCE
    ensures Less(a, b) <==> Below(PlaceOf(KeyBytes(a)), PlaceOf(KeyBytes(b)))
  {
    KeyParts(a);
    KeyParts(b);
  }

  // ------------------------------------------------------------------- blocks

  /** What the format can hold: 56-bit sequence numbers, 32-bit lengths. */
  ghost predicate Fits(e: Entry) {
    e.key.sequence <= MAX_SEQUENCE && |e.key.user| + TRAILER_SIZE < LIMIT_32 && |e.value| < LIMIT_32
  }

  ghost predicate Encoded(list: seq<Pair>, entries: seq<Entry>) {
    && |list| == |entries|
    && forall i :: 0 <= i < |entries| ==>
         Fits(entries[i]) && list[i] == Pair(KeyBytes(entries[i].key), entries[i].value)
  }

  /** The block was built of these entries, under the engine's comparator. */
  ghost predicate HoldsEntries(b: Block, s: Source, entries: seq<Entry>) {
    b.From(s) && s.rank == PlaceOf && b.minLength == TRAILER_SIZE && Encoded(s.layout.list, entries) && Sorted(entries)
  }

  /** A finished block of encoded entries is such a block for its reader. */
  lemma BuiltHolds(data: Bytes, region: Bytes, layout: Layout, entries: seq<Entry>)
    requires IsBlock(data, region, layout) && Encoded(layout.list, entries) && Sorted(entries)
    ensures HoldsEntries(Block(data, region, |layout.starts|, CompareBytes, TRAILER_SIZE), Source(layout, PlaceOf),
        entries)
  {
    InternalOrders();
    forall i, j | 0 <= i < j < |entries| ensures Below(PlaceOf(layout.list[i].key), PlaceOf(layout.list[j].key)) {
      PlaceIsOrder(entries[i].key, entries[j].key);
    }
    forall i | 0 <= i < |entries| ensures TRAILER_SIZE <= |layout.list[i].key| {
      KeyParts(entries[i].key);
    }
  }

  lemma FirstIs(list: seq<Pair>, entries: seq<Entry>, target: InternalKey, p: nat)
    requires Encoded(list, entries) && Sorted(entries) && target.sequence <= MAX_SEQUENCE
    requires IsFirst(list, PlaceOf, KeyBytes(target), p)
    ensures FirstAtOrAfter(entries, target) == p
  {
    forall k | 0 <= k < p ensures Less(entries[k].key, target) {
      PlaceIsOrder(entries[k].key, target);
    }
    if p < |entries| {
      PlaceIsOrder(entries[p].key, target);
    }
    TwoLevel.SeekIs(entries, target, p);
  }

  /** Searching the bytes finds the first entry at or after the target. */
  method FindEntry(b: Block, target: InternalKey, ghost s: Source, ghost entries: seq<Entry>) returns (r: Option<Entry>)
    requires HoldsEntries(b, s, entries) && target.sequence <= MAX_SEQUENCE
    ensures var p := FirstAtOrAfter(entries, target); r == if p < |entries| then Some(entries[p]) else None
  {
    KeyParts(target);
    var found := Find(b, KeyBytes(target), Some(s));
    if found.Miss? {
      FirstIs(s.layout.list, entries, target, |entries|);
      return None;
    }
    ghost var i :| 0 <= i < |entries| && found.pair == s.layout.list[i] &&
        IsFirst(s.layout.list, PlaceOf, KeyBytes(target), i);
    FirstIs(s.layout.list, entries, target, i);
    ParseRoundTrip(entries[i].key);
    var key := ParseKey(found.pair.key);
    r := Some(Entry(key.value, found.pair.value));
  }
}
