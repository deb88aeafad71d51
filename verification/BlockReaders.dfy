/** Block::Iter and Block::find, on whatever bytes they are given: every access
    is inside the block, every loop ends, and on a block the builder made they
    are a cursor over exactly the pairs added. */
module BlockReaders {
  import opened Entries
  import opened Encoding
  import opened BlockFormat

  type Comparator = (Bytes, Bytes) -> int

  /** Where a key stands in an order: by a first part, ties by a second. */
  datatype Place = Place(major: real, minor: int)

  ghost predicate Below(a: Place, b: Place) {
    a.major < b.major || (a.major == b.major && a.minor < b.minor)
  }

  /** The comparator is an order of the keys that are long enough for it, given
      by where each of them stands. */
  ghost predicate Orders(compare: Comparator, rank: Bytes -> Place, minLength: nat) {
    forall a, b {:trigger compare(a, b)} :: minLength <= |a| && minLength <= |b| ==>
      (compare(a, b) < 0 <==> Below(rank(a), rank(b))) && (compare(a, b) > 0 <==> Below(rank(b), rank(a)))
  }

  ghost predicate SortedBy(list: seq<Pair>, rank: Bytes -> Place) {
    forall i, j :: 0 <= i < j < |list| ==> Below(rank(list[i].key), rank(list[j].key))
  }

  /** The first pair at or after the target, or the end. */
  ghost predicate IsFirst(list: seq<Pair>, rank: Bytes -> Place, target: Bytes, i: nat) {
    && i <= |list|
    && (forall j :: 0 <= j < i ==> Below(rank(list[j].key), rank(target)))
    && (i < |list| ==> !Below(rank(list[i].key), rank(target)))
  }

  /** decode_entry with its fast path for three short lengths. */
  method Decode(region: Bytes, p: nat) returns (h: Option<Header>)
    ensures h == DecodeEntry(region, p)
  {
    if p + 3 > |region| {
      return None;
    }
    var header: Header;
    if region[p] < 128 && region[p + 1] < 128 && region[p + 2] < 128 {
      ShortHeader(region, p);
      header := Header(region[p], region[p + 1], region[p + 2], p + 3);
    } else {
      var a := GetVarint32(region, p);
      if a.None? {
        return None;
      }
      var b := GetVarint32(region, a.value.next);
      if b.None? {
        return None;
      }
      var c := GetVarint32(region, b.value.next);
      if c.None? {
        return None;
      }
      header := Header(a.value.value, b.value.value, c.value.value, c.value.next);
    }
    if |region| - header.body < header.ownLength + header.valueLength {
      return None;
    }
    return Some(header);
  }

  /** What the block was built from, when it was. */
  datatype Source = Source(layout: Layout, rank: Bytes -> Place)

  /** A block, checked no further than its constructor checks it. */
  datatype Block = Block(data: Bytes, region: Bytes, restarts: nat, compare: Comparator, minLength: nat)
  {
    ghost predicate Ok() {
      0 < restarts && region <= data && |data| == |region| + 4 * restarts + 4
    }

    function Restart(k: nat): nat
      requires Ok() && k <= restarts
    {
      GetFixed32(data, |region| + 4 * k)
    }

    /** It is the one the builder made of these pairs. */
    ghost predicate From(s: Source) {
      && Ok() && IsBlock(data, region, s.layout) && restarts == |s.layout.starts|
      && Orders(compare, s.rank, minLength) && SortedBy(s.layout.list, s.rank)
      && forall i :: 0 <= i < |s.layout.list| ==> minLength <= |s.layout.list[i].key|
    }
  }

  lemma RestartIs(b: Block, s: Source, k: nat)
    requires b.From(s) && k < b.restarts
    ensures s.layout.starts[k] <= |s.layout.list| && b.Restart(k) == s.layout.offsets[s.layout.starts[k]]
  {
    RestartReads(b.data, b.region, s.layout, k);
  }

  /** Restart point k compared with the offset of an entry is its entry
      compared with that entry. */
  lemma RestartOrder(b: Block, s: Source, k: nat, j: nat)
    requires b.From(s) && k < b.restarts && j <= |s.layout.list|
    ensures s.layout.starts[k] <= |s.layout.list|
    ensures b.Restart(k) < s.layout.offsets[j] <==> s.layout.starts[k] < j
  {
    RestartIs(b, s, k);
    if s.layout.starts[k] <= j {
      OffsetsGrow(b.region, s.layout, s.layout.starts[k], j);
    } else {
      OffsetsGrow(b.region, s.layout, j, s.layout.starts[k]);
    }
  }

  /** The key at a restart point stands alone. */
  lemma RestartKey(b: Block, s: Source, k: nat)
    requires b.From(s) && k < b.restarts && s.layout.list != []
    ensures b.Restart(k) < |b.region| && s.layout.starts[k] < |s.layout.list|
    ensures var h := DecodeEntry(b.region, b.Restart(k));
            && h.Some? && h.value.shared == 0
            && b.region[h.value.body..h.value.body + h.value.ownLength] == s.layout.list[s.layout.starts[k]].key
  {
    RestartIs(b, s, k);
    var i := s.layout.starts[k];
    EntryReads(b.region, s.layout, i, []);
    OffsetsGrow(b.region, s.layout, i, |s.layout.list|);
    var h := DecodeEntry(b.region, b.Restart(k)).value;
    assert [] + b.region[h.body..h.body + h.ownLength] == b.region[h.body..h.body + h.ownLength];
  }

  /** The key at a restart point, if one begins there. */
  method RestartKeyAt(b: Block, k: nat, ghost s: Option<Source>) returns (key: Option<Bytes>)
    requires b.Ok() && k < b.restarts && (s.Some? ==> b.From(s.value) && s.value.layout.list != [])
    ensures s.Some? ==> s.value.layout.starts[k] < |s.value.layout.list|
    ensures s.Some? ==> key == Some(s.value.layout.list[s.value.layout.starts[k]].key)
  {
    var offset := b.Restart(k);
    if s.Some? {
      RestartKey(b, s.value, k);
    }
    if offset >= |b.region| {
      return None;
    }
    var h := Decode(b.region, offset);
    if h.None? || h.value.shared != 0 {
      return None;
    }
    if h.value.ownLength < b.minLength {
      return None;
    }
    return Some(b.region[h.value.body..h.value.body + h.value.ownLength]);
  }

  /** The binary search of seek and find: the last restart point whose key is
      below the target, or the first; None if the block is not what it claims. */
  method SearchRestarts(b: Block, target: Bytes, ghost s: Option<Source>) returns (left: Option<nat>)
    requires b.Ok() && (s.Some? ==> b.From(s.value) && b.minLength <= |target|)
    ensures left.Some? ==> left.value < b.restarts
    ensures s.Some? ==> left.Some? && StartsBelow(s.value, target, left.value)
    ensures s.Some? ==> StartsAbove(s.value, target, left.value)
  {
    var lo: nat, hi: nat := 0, b.restarts - 1;
    while lo < hi
      invariant lo <= hi < b.restarts
      invariant s.Some? ==> StartsBelow(s.value, target, lo) && StartsAbove(s.value, target, hi)
    {
      var mid := (lo + hi + 1) / 2;
      if s.Some? {
        ManyStarts(b, s.value);
      }
      var key := RestartKeyAt(b, mid, s);
      if key.None? {
        return None;
      }
      if b.compare(key.value, target) < 0 {
        if s.Some? {
          BelowHere(s.value, target, mid);
        }
        lo := mid;
      } else {
        if s.Some? {
          AboveHere(s.value, target, mid);
        }
        hi := mid - 1;
      }
    }
    return Some(lo);
  }

  lemma BelowHere(s: Source, target: Bytes, k: nat)
    requires k < |s.layout.starts| && s.layout.starts[k] < |s.layout.list| && SortedBy(s.layout.list, s.rank)
    requires Below(s.rank(s.layout.list[s.layout.starts[k]].key), s.rank(target))
    ensures StartsBelow(s, target, k)
  {
  }

  lemma AboveHere(s: Source, target: Bytes, k: nat)
    requires s.layout.Shaped() && StartsOk(s.layout) && SortedBy(s.layout.list, s.rank)
    requires 0 < k < |s.layout.starts| && s.layout.starts[k] < |s.layout.list|
    requires !Below(s.rank(s.layout.list[s.layout.starts[k]].key), s.rank(target))
    ensures StartsAbove(s, target, k - 1)
  {
  }

  /** Everything before restart point k is below the target. */
  ghost predicate StartsBelow(s: Source, target: Bytes, k: nat) {
    && k < |s.layout.starts| && s.layout.starts[k] <= |s.layout.list|
    && forall j :: 0 <= j < s.layout.starts[k] ==> Below(s.rank(s.layout.list[j].key), s.rank(target))
  }

  /** Every restart point after k is at or past the target. */
  ghost predicate StartsAbove(s: Source, target: Bytes, k: nat) {
    forall j :: k < j < |s.layout.starts| && s.layout.starts[j] < |s.layout.list| ==>
      !Below(s.rank(s.layout.list[s.layout.starts[j]].key), s.rank(target))
  }

  lemma ManyStarts(b: Block, s: Source)
    requires b.From(s) && 1 < b.restarts
    ensures s.layout.list != []
  {
    assert s.layout.starts[1] < |s.layout.list| || (1 == 0 && s.layout.list == []);
  }

  // --------------------------------------------------------------------- find

  /** Poised to decode entry j, having rebuilt the key before it. */
  ghost predicate Poised(s: Source, p: nat, key: Bytes, j: nat)
    requires s.layout.Shaped()
  {
    j <= |s.layout.list| && p == s.layout.offsets[j] &&
    (j < |s.layout.list| ==> s.layout.shared[j] == 0 || (0 < j && key == s.layout.list[j - 1].key))
  }

  /** One step of the walk: the key at p rebuilt from the one before it. */
  method Rebuild(b: Block, p: nat, key: Bytes, ghost s: Option<Source>, ghost j: nat)
    returns (ok: bool, next: Bytes, h: Header)
    requires b.Ok() && p < |b.region| && (s.Some? ==> b.From(s.value) && Poised(s.value, p, key, j))
    ensures ok ==> h.body + h.ownLength + h.valueLength <= |b.region| && p + 3 <= h.body
    ensures s.Some? ==> ok && j < |s.value.layout.list| && next == s.value.layout.list[j].key
    ensures s.Some? ==> h.body + h.ownLength + h.valueLength == s.value.layout.offsets[j + 1]
    ensures s.Some? ==>
              b.region[h.body + h.ownLength..h.body + h.ownLength + h.valueLength] == s.value.layout.list[j].value
  {
    ok, next, h := false, key, Header(0, 0, 0, 0);
    if s.Some? {
      assert j < |s.value.layout.list|;
      EntryReads(b.region, s.value.layout, j, key);
    }
    var decoded := Decode(b.region, p);
    if decoded.None? {
      return;
    }
    h := decoded.value;
    if h.shared > |key| {
      return;
    }
    next := key[..h.shared] + b.region[h.body..h.body + h.ownLength];
    if |next| < b.minLength {
      return;
    }
    ok := true;
  }

  datatype Found = Hit(pair: Pair) | Miss | Corrupt

  /** The first pair at or after the target, by binary search and a walk. */
  method Find(b: Block, target: Bytes, ghost s: Option<Source>) returns (r: Found)
    requires b.Ok() && (s.Some? ==> b.From(s.value) && b.minLength <= |target|)
    ensures s.Some? ==> !r.Corrupt?
    ensures s.Some? && r.Miss? ==> IsFirst(s.value.layout.list, s.value.rank, target, |s.value.layout.list|)
    ensures s.Some? && r.Hit? ==>
              exists i :: 0 <= i < |s.value.layout.list| && r.pair == s.value.layout.list[i] &&
                          IsFirst(s.value.layout.list, s.value.rank, target, i)
  {
    var left := SearchRestarts(b, target, s);
    if left.None? {
      return Corrupt;
    }
    var p := b.Restart(left.value);
    ghost var j: nat := 0;
    if s.Some? {
      RestartIs(b, s.value, left.value);
      j := s.value.layout.starts[left.value];
      OffsetsGrow(b.region, s.value.layout, j, |s.value.layout.list|);
    }
    if p > |b.region| {
      return Corrupt;
    }
    var key := [];
    while p < |b.region|
      invariant p <= |b.region|
      invariant s.Some? ==> Poised(s.value, p, key, j) && AllBelow(s.value, target, j)
      decreases |b.region| - p
    {
      var ok, next, h := Rebuild(b, p, key, s, j);
      if !ok {
        return Corrupt;
      }
      key := next;
      p := h.body + h.ownLength;
      if b.compare(key, target) >= 0 {
        return Hit(Pair(key, b.region[p..p + h.valueLength]));
      }
      p := p + h.valueLength;
      j := j + 1;
    }
    if s.Some? && j < |s.value.layout.list| {
      OffsetsGrow(b.region, s.value.layout, j, |s.value.layout.list|);
    }
    return Miss;
  }

  ghost predicate AllBelow(s: Source, target: Bytes, j: nat) {
    j <= |s.layout.list| && forall i :: 0 <= i < j ==> Below(s.rank(s.layout.list[i].key), s.rank(target))
  }
}
