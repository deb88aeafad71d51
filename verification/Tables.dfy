/** A table: data blocks, an index of shortened separators, and a filter; and
    the lookup that reads one block of it.

    `Table` is what a table means: the entries of each block.  `Stored` is what
    the lookup reads: the bytes of the index block, and of the block that a
    handle leads to. */
module Tables {
  import opened Keys
  import opened Entries
  import opened Bloom
  import opened FilterBlocks
  import opened BlockReaders
  import opened EntryBlocks
  import opened Levels
  import TwoLevel
  import VersionGet

  /** Index entry i: separators[i], and the block at offsets[i]. */
  datatype Table = Table(separators: seq<InternalKey>, offsets: seq<nat>, blocks: seq<seq<Entry>>,
      filter: Option<Bytes>)

  /** The index block, what reading the block of a handle yields, and the offset
      a handle names. */
  datatype Stored = Stored(index: Block, open: Bytes -> Block, offsetOf: Bytes -> nat)

  /** What the blocks were built from; the index holds separators and handles. */
  datatype Sources = Sources(index: Source, entries: seq<Entry>, blocks: seq<Source>)

  /** The bytes are those of this table. */
  ghost predicate Stores(x: Stored, t: Table, g: Sources) {
    && Shaped(t) && |g.entries| == |g.blocks| == |t.blocks|
    && HoldsEntries(x.index, g.index, g.entries)
    && forall i :: 0 <= i < |t.blocks| ==>
         && g.entries[i].key == t.separators[i] && x.offsetOf(g.entries[i].value) == t.offsets[i]
         && HoldsEntries(x.open(g.entries[i].value), g.blocks[i], t.blocks[i])
  }

  /** The filter block, as built. */
  datatype Filtered = Filtered(hash: Hash, result: Bytes, starts: seq<nat>, regions: seq<seq<UserKey>>)

  ghost predicate Shaped(t: Table) {
    |t.separators| == |t.offsets| == |t.blocks|
  }

  /** Separator i is at or after its block; later entries are after it, and of a
      later user key unless it is its block's own last key. */
  ghost predicate Separates(t: Table, i: nat, later: Entry)
    requires Shaped(t) && i < |t.blocks|
  {
    && Less(t.separators[i], later.key)
    && ((t.blocks[i] != [] && t.separators[i] == t.blocks[i][|t.blocks[i]| - 1].key) ||
        Rank(t.separators[i].user) < Rank(later.key.user))
  }

  ghost predicate BlockOk(t: Table, i: nat)
    requires Shaped(t) && i < |t.blocks|
  {
    && t.blocks[i] != [] && Sorted(t.blocks[i])
    && forall e :: e in t.blocks[i] ==> AtMost(e.key, t.separators[i])
  }

  ghost predicate IndexOk(t: Table) {
    && Shaped(t)
    && (forall i :: 0 <= i < |t.blocks| ==> BlockOk(t, i))
    && (forall i, j, e {:trigger t.separators[i], e in t.blocks[j]} :: 0 <= i < j < |t.blocks| && e in t.blocks[j] ==>
        Separates(t, i, e))
    && (forall i, j :: 0 <= i < j < |t.blocks| ==> Less(t.separators[i], t.separators[j]))
  }

  /** The filter admits the user key of every entry, for its block's offset. */
  ghost predicate FilterOk(t: Table, f: Filtered) {
    && Shaped(t)
    && (t.filter.Some? ==>
          && IsFilterBlock(t.filter.value, f.hash, f.result, f.starts, f.regions)
          && forall i, e {:trigger e in t.blocks[i]} :: 0 <= i < |t.blocks| && e in t.blocks[i] ==>
               t.offsets[i] / BASE < |f.regions| && e.key.user in f.regions[t.offsets[i] / BASE])
  }

  /** The table as a two-level index. */
  function AsIndex(t: Table): TwoLevel.Index {
    TwoLevel.Index(t.separators, seq(|t.blocks|, i => i), i => if 0 <= i < |t.blocks| then t.blocks[i] else [])
  }

  ghost function AllOf(t: Table): seq<Entry> {
    AsIndex(t).All()
  }

  lemma AsIndexOk(t: Table)
    requires IndexOk(t)
    ensures AsIndex(t).Separated() && Sorted(AllOf(t))
    ensures forall i :: 0 <= i < |t.blocks| ==> AsIndex(t).Block(i) == t.blocks[i]
  {
    var x := AsIndex(t);
    forall i, j, e | 0 <= j <= i < |x.handles| && e in x.Block(j) ensures AtMost(e.key, x.separators[i]) {
      assert e in t.blocks[j] && BlockOk(t, j);
      assert AtMost(e.key, t.separators[j]);
      assert j < i ==> Less(t.separators[j], t.separators[i]);
    }
    forall i, j, e | 0 <= i < j < |x.handles| && e in x.Block(j) ensures Less(x.separators[i], e.key) {
      assert e in t.blocks[j] && Separates(t, i, e);
    }
    forall i | 0 <= i < |x.handles| ensures Sorted(x.Block(i)) {
      assert BlockOk(t, i);
    }
    TwoLevel.JoinedSorted(x, |x.handles|);
  }

  /** What the lookup's caller keeps: an entry of its own user key. */
  function Saved(r: Option<Entry>, user: UserKey): Option<Entry> {
    if r.Some? && r.value.key.user == user then r else None
  }

  ghost function FirstOfUser(all: seq<Entry>, target: InternalKey): Option<Entry> {
    var p := FirstAtOrAfter(all, target);
    if p < |all| && all[p].key.user == target.user then Some(all[p]) else None
  }

  lemma {:induction false} FirstSeparatorIs(entries: seq<Entry>, separators: seq<InternalKey>, target: InternalKey)
    requires |entries| == |separators| && Sorted(entries) && forall i :: 0 <= i < |entries| ==>
               entries[i].key == separators[i]
    ensures FirstAtOrAfter(entries, target) == TwoLevel.FirstSeparator(separators, target)
  {
    TwoLevel.SeekIs(entries, target, TwoLevel.FirstSeparator(separators, target));
  }

  ghost function FirstIn(block: seq<Entry>, target: InternalKey): Option<Entry> {
    var p := FirstAtOrAfter(block, target);
    if p < |block| then Some(block[p]) else None
  }

  /** The block the index names speaks for the whole table. */
  lemma {:induction false} IndexSpeaks(t: Table, target: InternalKey)
    requires IndexOk(t)
    ensures var i := TwoLevel.FirstSeparator(t.separators, target);
            FirstOfUser(AllOf(t), target) == if i == |t.blocks| then None
                else Saved(FirstIn(t.blocks[i], target), target.user)
  {
    AsIndexOk(t);
    TwoLevel.SeekInBlock(AsIndex(t), target);
    var i := TwoLevel.FirstSeparator(t.separators, target);
    if i < |t.blocks| {
      OneBlock(t, target, i, FirstAtOrAfter(t.blocks[i], target));
    }
  }

  /** The filter, and then the block. */
  method GetFromBlock(x: Stored, filter: Option<Bytes>, target: InternalKey, hash: Hash, handle: Bytes,
                      ghost t: Table, ghost f: Filtered, ghost s: Source, ghost i: nat) returns (r: Option<Entry>)
    requires FilterOk(t, f) && f.hash == hash && t.filter == filter && i < |t.blocks| && target.sequence <= MAX_SEQUENCE
    requires x.offsetOf(handle) == t.offsets[i] && HoldsEntries(x.open(handle), s, t.blocks[i])
    ensures Saved(r, target.user) == Saved(FirstIn(t.blocks[i], target), target.user)
  {
    if filter.Some? {
      var may := FilterMayMatch(filter.value, hash, x.offsetOf(handle), target.user, f.result, f.starts, f.regions);
      if !may {
        RuledOut(t, f, i, target);
        return None;
      }
    }
    r := FindEntry(x.open(handle), target, s, t.blocks[i]);
  }

  /** Index search, filter, one block, on the bytes: no lookup is lost. */
  method InternalGet(x: Stored, filter: Option<Bytes>, target: InternalKey, hash: Hash,
                     ghost t: Table, ghost f: Filtered, ghost g: Sources) returns (r: Option<Entry>)
    requires IndexOk(t) && FilterOk(t, f) && f.hash == hash && t.filter == filter
    requires Stores(x, t, g) && target.sequence <= MAX_SEQUENCE
    ensures Saved(r, target.user) == FirstOfUser(AllOf(t), target)
  {
    IndexSpeaks(t, target);
    FirstSeparatorIs(g.entries, t.separators, target);
    ghost var i := TwoLevel.FirstSeparator(t.separators, target);
    var found := FindEntry(x.index, target, g.index, g.entries);
    if found.None? {
      return None;
    }
    r := GetFromBlock(x, filter, target, hash, found.value.value, t, f, g.blocks[i], i);
  }

  /** A user key the filter rules out has no entry in the block. */
  lemma RuledOut(t: Table, f: Filtered, i: nat, target: InternalKey)
    requires FilterOk(t, f) && t.filter.Some? && i < |t.blocks|
    requires !(t.offsets[i] / BASE < |f.regions| && target.user in f.regions[t.offsets[i] / BASE])
    ensures forall e :: e in t.blocks[i] ==> e.key.user != target.user
  {
  }

  /** The one block searched holds the entry, if the user key has one. */
  lemma {:induction false} OneBlock(t: Table, target: InternalKey, i: nat, j: nat)
    requires IndexOk(t) && i < |t.blocks| && j == FirstAtOrAfter(t.blocks[i], target)
    requires FirstAtOrAfter(AllOf(t), target) == |AsIndex(t).Joined(i)| + j && AsIndex(t).Block(i) == t.blocks[i]
    requires AtMost(target, t.separators[i])
    ensures FirstOfUser(AllOf(t), target) == Saved(if j < |t.blocks[i]| then Some(t.blocks[i][j])
        else None, target.user)
  {
    var x := AsIndex(t);
    if j < |t.blocks[i]| {
      TwoLevel.InBlock(x, i, j);
    } else {
      PastBlock(t, target, i);
    }
  }

  /** Past the end of the block the index names, the user key has no entries. */
  lemma {:induction false} PastBlock(t: Table, target: InternalKey, i: nat)
    requires IndexOk(t) && i < |t.blocks| && AtMost(target, t.separators[i])
    requires FirstAtOrAfter(t.blocks[i], target) == |t.blocks[i]|
    requires AsIndex(t).Block(i) == t.blocks[i]
    requires FirstAtOrAfter(AllOf(t), target) == |AsIndex(t).Joined(i + 1)|
    ensures FirstOfUser(AllOf(t), target) == None
  {
    var x, p := AsIndex(t), FirstAtOrAfter(AllOf(t), target);
    if p < |AllOf(t)| {
      var e := AllOf(t)[p];
      TwoLevel.FromBlock(x, i + 1, |x.handles|, p);
      var k :| i + 1 <= k < |x.handles| && e in x.Block(k);
      assert e in t.blocks[k];
      LaterUser(t, target, i, k, e);
    }
  }

  lemma LaterUser(t: Table, target: InternalKey, i: nat, k: nat, e: Entry)
    requires IndexOk(t) && i < k < |t.blocks| && e in t.blocks[k] && AtMost(target, t.separators[i])
    requires FirstAtOrAfter(t.blocks[i], target) == |t.blocks[i]|
    ensures e.key.user != target.user
  {
    assert BlockOk(t, i) && Separates(t, i, e);
    var last := t.blocks[i][|t.blocks[i]| - 1];
    assert Less(last.key, target);
  }

  /** A file kept as a table answers a version's lookup as the whole of its
      entries would. */
  method SearchTable(x: Stored, filter: Option<Bytes>, user: UserKey, snapshot: nat, hash: Hash,
                     ghost t: Table, ghost f: Filtered, ghost g: Sources, ghost file: File) returns (a: Answer)
    requires IndexOk(t) && FilterOk(t, f) && f.hash == hash && t.filter == filter
    requires Stores(x, t, g) && snapshot <= MAX_SEQUENCE && AllOf(t) == file.entries
    ensures a == VersionGet.SearchFile(file, user, snapshot)
  {
    var r := InternalGet(x, filter, LookupKey(user, snapshot), hash, t, f, g);
    if r.None? || r.value.key.user != user {
      return Absent;
    }
    a := if r.value.key.kind.Value? then Found(r.value.value) else Deleted;
  }
}
