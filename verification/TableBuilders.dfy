/** Building a table: a block's index entry waits for the first key of the next
    block, so that the separator between them can be shortened. */
module TableBuilders {
  import opened Keys
  import opened Entries
  import opened Encoding
  import opened Bloom
  import opened FilterBlocks
  import opened Separators
  import opened Tables

  /** The index with one more entry. */
  function Extended(t: Table, separator: InternalKey, offset: nat, block: seq<Entry>): Table {
    Table(t.separators + [separator], t.offsets + [offset], t.blocks + [block], t.filter)
  }

  /** Every separator so far separates from these entries. */
  ghost predicate SeparatesAll(t: Table, later: seq<Entry>)
    requires Shaped(t)
  {
    forall i, e {:trigger t.blocks[i], e in later} :: 0 <= i < |t.blocks| && e in later ==> Separates(t, i, e)
  }

  lemma ExtendedBlocks(t: Table, separator: InternalKey, offset: nat, block: seq<Entry>)
    requires IndexOk(t) && Sorted(block) && block != []
    requires forall e :: e in block ==> AtMost(e.key, separator)
    ensures var x := Extended(t, separator, offset, block); Shaped(x) && forall i :: 0 <= i < |x.blocks| ==>
              BlockOk(x, i)
  {
    var x := Extended(t, separator, offset, block);
    forall i | 0 <= i < |x.blocks| ensures BlockOk(x, i) {
      assert i < |t.blocks| ==> BlockOk(t, i);
    }
  }

  lemma ExtendedOk(t: Table, separator: InternalKey, offset: nat, block: seq<Entry>)
    requires IndexOk(t) && SeparatesAll(t, block) && Sorted(block) && block != []
    requires forall e :: e in block ==> AtMost(e.key, separator)
    ensures IndexOk(Extended(t, separator, offset, block))
  {
    var x := Extended(t, separator, offset, block);
    ExtendedBlocks(t, separator, offset, block);
    forall i, j, e | 0 <= i < j < |x.blocks| && e in x.blocks[j] ensures Separates(x, i, e) {
      assert j < |t.blocks| ==> e in t.blocks[j];
      assert t.blocks[i] == x.blocks[i];
      assert Separates(t, i, e);
    }
    forall i, j | 0 <= i < j < |x.blocks| ensures Less(x.separators[i], x.separators[j]) {
      assert t.blocks[i] == x.blocks[i];
      assert j == |t.blocks| ==> block[0] in block && Separates(t, i, block[0]) && AtMost(block[0].key, separator);
    }
  }

  /** The next entry lies past the new separator too. */
  lemma ExtendedSeparates(t: Table, separator: InternalKey, offset: nat, block: seq<Entry>, next: Entry)
    requires IndexOk(t) && SeparatesAll(t, block) && Sorted(block) && block != []
    requires Less(block[|block| - 1].key, next.key) && Less(separator, next.key)
    requires separator == block[|block| - 1].key || Rank(separator.user) < Rank(next.key.user)
    ensures Shaped(Extended(t, separator, offset, block)) && SeparatesAll(Extended(t, separator, offset, block), [next])
  {
    var x, last := Extended(t, separator, offset, block), block[|block| - 1];
    forall i | 0 <= i < |x.blocks| ensures Separates(x, i, next) {
      if i < |t.blocks| {
        assert t.blocks[i] == x.blocks[i];
        assert last in block && Separates(t, i, last);
      }
    }
  }

  lemma {:induction false} JoinedSame(t: Table, x: Table, n: nat)
    requires n <= |t.blocks| <= |x.blocks| && t.blocks <= x.blocks
    ensures AsIndex(t).Joined(n) == AsIndex(x).Joined(n)
  {
    if n > 0 {
      JoinedSame(t, x, n - 1);
      assert t.blocks[n - 1] == x.blocks[n - 1];
    }
  }

  lemma ExtendedAll(t: Table, separator: InternalKey, offset: nat, block: seq<Entry>)
    ensures AllOf(Extended(t, separator, offset, block)) == AllOf(t) + block
  {
    JoinedSame(t, Extended(t, separator, offset, block), |t.blocks|);
  }

  // ------------------------------------------------------------------ filters

  /** The user key is in the filter of the offset's region, or will be. */
  ghost predicate InRegion(keys: seq<UserKey>, regions: seq<seq<UserKey>>, offset: nat, user: UserKey) {
    var r := offset / BASE;
    if r < |regions| then user in regions[r] else r == |regions| && user in keys
  }

  ghost predicate Filed(keys: seq<UserKey>, regions: seq<seq<UserKey>>, offset: nat, block: seq<Entry>) {
    forall e :: e in block ==> InRegion(keys, regions, offset, e.key.user)
  }

  ghost predicate AllFiled(keys: seq<UserKey>, regions: seq<seq<UserKey>>, t: Table)
    requires Shaped(t)
  {
    forall i {:trigger t.blocks[i]} :: 0 <= i < |t.blocks| ==> Filed(keys, regions, t.offsets[i], t.blocks[i])
  }

  /** Pending keys only grow, or become the next filter. */
  ghost predicate Moved(keys: seq<UserKey>, regions: seq<seq<UserKey>>, keys': seq<UserKey>,
                        regions': seq<seq<UserKey>>) {
    (regions' == regions && keys <= keys') || regions + [keys] <= regions'
  }

  lemma FiledMoves(keys: seq<UserKey>, regions: seq<seq<UserKey>>, keys': seq<UserKey>, regions': seq<seq<UserKey>>,
                   offset: nat, block: seq<Entry>)
    requires Filed(keys, regions, offset, block) && Moved(keys, regions, keys', regions')
    ensures Filed(keys', regions', offset, block)
  {
    var r := offset / BASE;
    forall e | e in block ensures InRegion(keys', regions', offset, e.key.user) {
      assert InRegion(keys, regions, offset, e.key.user);
      assert r < |regions| ==> regions'[r] == regions[r];
      if r == |regions| && regions' != regions {
        assert (regions + [keys])[r] == keys;
      }
    }
  }

  lemma AllFiledMoves(keys: seq<UserKey>, regions: seq<seq<UserKey>>, keys': seq<UserKey>,
                      regions': seq<seq<UserKey>>, t: Table)
    requires Shaped(t) && AllFiled(keys, regions, t) && Moved(keys, regions, keys', regions')
    ensures AllFiled(keys', regions', t)
  {
    forall i | 0 <= i < |t.blocks| ensures Filed(keys', regions', t.offsets[i], t.blocks[i]) {
      FiledMoves(keys, regions, keys', regions', t.offsets[i], t.blocks[i]);
    }
  }

  /** Once finished, every key is in its region's filter. */
  lemma FiledIn(keys: seq<UserKey>, regions: seq<seq<UserKey>>, regions': seq<seq<UserKey>>, t: Table)
    requires Shaped(t) && AllFiled(keys, regions, t) && regions' == regions + (if keys == [] then [] else [keys])
    ensures forall i, e {:trigger e in t.blocks[i]} :: 0 <= i < |t.blocks| && e in t.blocks[i] ==>
              t.offsets[i] / BASE < |regions'| && e.key.user in regions'[t.offsets[i] / BASE]
  {
    forall i, e | 0 <= i < |t.blocks| && e in t.blocks[i]
      ensures t.offsets[i] / BASE < |regions'| && e.key.user in regions'[t.offsets[i] / BASE]
    {
      assert Filed(keys, regions, t.offsets[i], t.blocks[i]);
      assert InRegion(keys, regions, t.offsets[i], e.key.user);
    }
  }

  lemma NextSorted(block: seq<Entry>, e: Entry)
    requires Sorted(block) && (block != [] ==> Less(block[|block| - 1].key, e.key))
    ensures Sorted(block + [e])
  {
  }

  lemma NextSeparates(t: Table, block: seq<Entry>, e: Entry)
    requires Shaped(t) && SeparatesAll(t, block)
    requires (if block == [] then t.blocks == [] else Less(block[|block| - 1].key, e.key))
    ensures SeparatesAll(t, block + [e])
  {
    forall i, x | 0 <= i < |t.blocks| && x in block + [e] ensures Separates(t, i, x) {
      if x !in block {
        var last := block[|block| - 1];
        assert last in block && t.blocks[i] == t.blocks[i];
        assert Separates(t, i, last);
      }
    }
  }

  lemma WithFilter(t: Table, filter: Bytes)
    requires IndexOk(t)
    ensures IndexOk(t.(filter := Some(filter))) && AllOf(t.(filter := Some(filter))) == AllOf(t)
  {
    var x := t.(filter := Some(filter));
    JoinedSame(t, x, |t.blocks|);
    forall i | 0 <= i < |x.blocks| ensures BlockOk(x, i) {
      assert BlockOk(t, i);
    }
    forall i, j, e | 0 <= i < j < |x.blocks| && e in x.blocks[j] ensures Separates(x, i, e) {
      assert Separates(t, i, e);
    }
  }

  // ------------------------------------------------------------- places in the file

  /** Blocks follow one another from the start of the file; the next is at end. */
  ghost predicate Placed(t: Table, sizeOf: seq<Entry> -> nat, end: nat)
    requires Shaped(t)
  {
    && (forall i {:trigger PlacedAt(t, sizeOf, i)} :: 0 <= i < |t.offsets| ==> PlacedAt(t, sizeOf, i))
    && end == PlaceOf(t, sizeOf, |t.offsets|)
  }

  ghost predicate PlacedAt(t: Table, sizeOf: seq<Entry> -> nat, i: nat)
    requires Shaped(t) && i < |t.offsets|
  {
    t.offsets[i] == PlaceOf(t, sizeOf, i)
  }

  ghost function PlaceOf(t: Table, sizeOf: seq<Entry> -> nat, i: nat): nat
    requires Shaped(t) && i <= |t.offsets|
  {
    if i == 0 then 0 else t.offsets[i - 1] + sizeOf(t.blocks[i - 1])
  }

  lemma ExtendedPlaced(t: Table, separator: InternalKey, offset: nat, block: seq<Entry>, sizeOf: seq<Entry> -> nat)
    requires Shaped(t) && Placed(t, sizeOf, offset)
    ensures Shaped(Extended(t, separator, offset, block))
    ensures Placed(Extended(t, separator, offset, block), sizeOf, offset + sizeOf(block))
  {
    var x := Extended(t, separator, offset, block);
    forall i | 0 <= i < |x.offsets| ensures PlacedAt(x, sizeOf, i) {
      if i < |t.offsets| {
        assert PlacedAt(t, sizeOf, i);
      }
    }
  }

  lemma PlacedSame(t: Table, x: Table, sizeOf: seq<Entry> -> nat, end: nat)
    requires Shaped(t) && Placed(t, sizeOf, end) && x == t.(filter := x.filter)
    ensures Shaped(x) && Placed(x, sizeOf, end)
  {
    forall i | 0 <= i < |x.offsets| ensures PlacedAt(x, sizeOf, i) {
      assert PlacedAt(t, sizeOf, i);
    }
  }

  /** Where a shorter key than the last fits before the next, this is as short
      as they come. */
  ghost predicate Shortened(last: InternalKey, next: InternalKey, separator: InternalKey) {
    Room(last.user, next.user) && Shared(last.user, next.user) + 1 < |last.user| ==>
      |separator.user| == Shared(last.user, next.user) + 1
  }

  class TableBuilder {
    /** When a block is full, and how many bytes it and its trailer take. */
    const full: seq<Entry> -> bool
    const sizeOf: seq<Entry> -> nat
    /** Whether there is a filter policy; without one the filter stays unused. */
    const filtered: bool
    const filter: FilterBlockBuilder
    var built: Table
    var block: seq<Entry>
    var lastKey: InternalKey
    var offset: nat
    /** The block whose index entry is still to be written, and where it is. */
    var pending: bool
    var pendingBlock: seq<Entry>
    var pendingOffset: nat

    /** The entries not yet under the index: one block at most. */
    ghost function Tail(): seq<Entry>
      reads this
    {
      if pending then pendingBlock else block
    }

    ghost function All(): seq<Entry>
      reads this
    {
      AllOf(built) + Tail()
    }

    ghost predicate IndexValid()
      reads this
    {
      && IndexOk(built) && built.filter.None?
      && (pending ==> block == [] && pendingBlock != [])
      && Sorted(Tail()) && SeparatesAll(built, Tail())
      && (if Tail() == [] then built.blocks == [] else lastKey == Tail()[|Tail()| - 1].key)
    }

    ghost predicate FilterValid()
      requires Shaped(built)
      reads this, filter
    {
      filtered ==>
        && filter.Valid() && !filter.finished && |filter.offsets| == offset / BASE
        && AllFiled(filter.keys, filter.regions, built)
        && Filed(filter.keys, filter.regions, if pending then pendingOffset else offset, Tail())
    }

    ghost predicate Valid()
      reads this, filter
    {
      IndexValid() && FilterValid()
    }

    /** Every block is where its offset says. */
    ghost predicate InPlace()
      reads this
    {
      && Shaped(built) && Placed(built, sizeOf, if pending then pendingOffset else offset)
      && (pending ==> offset == pendingOffset + sizeOf(pendingBlock))
    }

    constructor (full: seq<Entry> -> bool, sizeOf: seq<Entry> -> nat, filtered: bool, hash: Hash, bitsPerKey: nat,
                 k: nat)
      requires 1 <= k <= MAX_PROBES
      ensures Valid() && InPlace() && All() == [] && this.filtered == filtered && fresh(filter) && filter.hash == hash
    {
      this.full, this.sizeOf, this.filtered := full, sizeOf, filtered;
      filter := new FilterBlockBuilder(hash, bitsPerKey, k);
      built, block, offset, pending := Table([], [], [], None), [], 0, false;
      pendingBlock, pendingOffset := [], 0;
    }

    /** The pending block goes under the index. */
    method PutIndexEntry(separator: InternalKey)
      requires Valid() && pending && AtMost(lastKey, separator)
      modifies this`built, this`pending
      ensures !pending && built == Extended(old(built), separator, pendingOffset, pendingBlock)
      ensures IndexOk(built) && AllOf(built) == old(All()) && FilterValid()
    {
      ExtendedOk(built, separator, pendingOffset, pendingBlock);
      ExtendedAll(built, separator, pendingOffset, pendingBlock);
      built := Extended(built, separator, pendingOffset, pendingBlock);
      pending := false;
    }

    /** Writes the index entry that was waiting for this key. */
    method SettlePending(e: Entry) returns (ghost shortened: InternalKey)
      requires Valid() && InPlace() && pending && Less(lastKey, e.key)
      modifies this`built, this`pending
      ensures !pending && IndexOk(built) && built.filter.None? && FilterValid()
      ensures SeparatesAll(built, [e]) && AllOf(built) == old(All()) && InPlace()
      ensures built.separators == old(built).separators + [shortened] && Shortened(lastKey, e.key, shortened)
    {
      assert lastKey == pendingBlock[|pendingBlock| - 1].key;
      var separator := InternalShortestSeparator(lastKey, e.key);
      ExtendedSeparates(built, separator, pendingOffset, pendingBlock, e);
      ExtendedPlaced(built, separator, pendingOffset, pendingBlock, sizeOf);
      PutIndexEntry(separator);
      shortened := separator;
    }

    method Settle(e: Entry)
      requires Valid() && InPlace() && (All() != [] ==> Less(lastKey, e.key))
      modifies this`built, this`pending
      ensures !pending && IndexOk(built) && built.filter.None? && FilterValid()
      ensures Sorted(block + [e]) && SeparatesAll(built, block + [e]) && AllOf(built) + block == old(All())
      ensures InPlace()
    {
      if pending {
        assert All() != [];
        ghost var shortened := SettlePending(e);
        assert block + [e] == [e];
      } else {
        NextSorted(block, e);
        NextSeparates(built, block, e);
      }
    }

    /** The filter is told user keys: its policy strips the trailer. */
    method Append(e: Entry)
      requires !pending && IndexOk(built) && built.filter.None? && FilterValid()
      requires Sorted(block + [e]) && SeparatesAll(built, block + [e])
      modifies this`block, this`lastKey, filter`keys
      ensures Valid() && !pending && lastKey == e.key && All() == AllOf(built) + old(block) + [e]
      ensures block == old(block) + [e]
    {
      if filtered {
        ghost var keys := filter.keys;
        filter.AddKey(e.key.user);
        AllFiledMoves(keys, filter.regions, filter.keys, filter.regions, built);
        FiledMoves(keys, filter.regions, filter.keys, filter.regions, offset, block);
      }
      lastKey := e.key;
      block := block + [e];
    }

    /** A block is written out as soon as it is full, and not before. */
    method Add(e: Entry)
      requires Valid() && InPlace() && (All() != [] ==> Less(lastKey, e.key))
      modifies this, filter
      ensures Valid() && InPlace() && All() == old(All()) + [e] && lastKey == e.key
      ensures (pending <==> full(Tail())) && Tail() == (if old(pending) then [] else old(block)) + [e]
    {
      Settle(e);
      Append(e);
      if full(block) {
        Flush();
      }
    }

    /** Writes the current block out; the filter moves on to the region of the
        offset after it. */
    method Flush()
      requires Valid()
      modifies this, filter
      ensures Valid() && All() == old(All()) && lastKey == old(lastKey) && block == []
      ensures filter.Weight() <= old(filter.Weight())
      ensures old(block) != [] ==> pending && pendingBlock == old(block)
      ensures built == old(built) && (old(block) == [] ==> pending == old(pending))
      ensures old(InPlace()) ==> InPlace()
    {
      if block == [] {
        return;
      }
      WriteBlock();
      if filtered {
        StartRegion();
      }
    }

    method WriteBlock()
      requires Valid() && block != []
      modifies this`block, this`offset, this`pending, this`pendingBlock, this`pendingOffset
      ensures IndexValid() && All() == old(All()) && block == []
      ensures pending && pendingBlock == old(block) && pendingOffset == old(offset) <= offset
      ensures filtered ==> AllFiled(filter.keys, filter.regions, built) &&
                           Filed(filter.keys, filter.regions, pendingOffset, pendingBlock)
      ensures old(InPlace()) ==> InPlace()
    {
      pendingBlock, pendingOffset, block := block, offset, [];
      offset := offset + sizeOf(pendingBlock);
      pending := true;
    }

    method StartRegion()
      requires IndexValid() && pending && pendingOffset <= offset && filter.Valid() && !filter.finished
      requires |filter.offsets| == pendingOffset / BASE && AllFiled(filter.keys, filter.regions, built)
      requires Filed(filter.keys, filter.regions, pendingOffset, pendingBlock)
      modifies filter
      ensures Valid() && filter.Weight() <= old(filter.Weight())
    {
      ghost var keys, regions := filter.keys, filter.regions;
      filter.StartBlock(offset);
      AllFiledMoves(keys, regions, filter.keys, filter.regions, built);
      FiledMoves(keys, regions, filter.keys, filter.regions, pendingOffset, pendingBlock);
    }

    method FinishFilter() returns (ghost f: Filtered)
      requires IndexOk(built) && built.filter.None? && filtered && FilterValid() && Tail() == []
      requires filter.Weight() < LIMIT_32
      modifies filter
      ensures FilterOk(built.(filter := Some(filter.result)), f) && f.hash == filter.hash
    {
      ghost var keys, regions := filter.keys, filter.regions;
      filter.Finish();
      f := Filtered(filter.hash, filter.filters, filter.offsets, filter.regions);
      FiledIn(keys, regions, filter.regions, built);
    }

    /** The last separator has nothing to stay before. */
    method PutLast() returns (ghost shortened: InternalKey)
      requires Valid() && InPlace() && block == []
      modifies this`built, this`pending
      ensures IndexOk(built) && built.filter.None? && !pending && AllOf(built) == old(All()) && FilterValid()
      ensures Placed(built, sizeOf, offset)
      ensures old(pending) ==>
                built.separators == old(built).separators + [shortened] && |shortened.user| == ShortLength(lastKey.user)
    {
      shortened := lastKey;
      if pending {
        var separator := InternalShortSuccessor(lastKey);
        ExtendedPlaced(built, separator, pendingOffset, pendingBlock, sizeOf);
        PutIndexEntry(separator);
        shortened := separator;
      }
    }

    method Finish() returns (t: Table, ghost f: Filtered)
      requires Valid() && InPlace() && (filtered ==> filter.Weight() < LIMIT_32)
      modifies this, filter
      ensures IndexOk(t) && FilterOk(t, f) && f.hash == filter.hash && AllOf(t) == old(All())
      ensures (t.filter.Some? <==> filtered) && Placed(t, sizeOf, offset)
    {
      Flush();
      t, f := FinishFlushed();
    }

    /** Every entry is in a block; the last one goes under the index. */
    method FinishFlushed() returns (t: Table, ghost f: Filtered)
      requires Valid() && InPlace() && block == [] && (filtered ==> filter.Weight() < LIMIT_32)
      modifies this`built, this`pending, filter
      ensures IndexOk(t) && FilterOk(t, f) && f.hash == filter.hash && AllOf(t) == old(All())
      ensures (t.filter.Some? <==> filtered) && Placed(t, sizeOf, offset)
    {
      ghost var shortened := PutLast();
      t, f := Close();
      PlacedSame(built, t, sizeOf, offset);
    }

    method Close() returns (t: Table, ghost f: Filtered)
      requires IndexOk(built) && built.filter.None? && FilterValid() && Tail() == []
      requires filtered ==> filter.Weight() < LIMIT_32
      modifies filter
      ensures IndexOk(t) && FilterOk(t, f) && f.hash == filter.hash && AllOf(t) == AllOf(built)
      ensures (t.filter.Some? <==> filtered) && t == built.(filter := t.filter)
    {
      if filtered {
        f := FinishFilter();
        t := built.(filter := Some(filter.result));
        WithFilter(built, filter.result);
      } else {
        t, f := built, Filtered(filter.hash, [], [], []);
      }
    }
  }
}
