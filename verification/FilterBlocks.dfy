/** The filter block: one Bloom filter for each 2 KiB of file offsets at which
    data blocks begin, found again by the offset alone. */
module FilterBlocks {
  import opened Keys
  import opened Entries
  import opened Encoding
  import opened Bloom

  const BASE_LOG: Byte := 11
  const BASE: nat := 2048

  /** In result[start..limit] is the filter of these keys, and nothing if there
      are none. */
  ghost predicate Admits(hash: Hash, result: Bytes, start: nat, limit: nat, keys: seq<UserKey>) {
    && start <= limit <= |result| && (start == limit <==> keys == [])
    && (start < limit ==> IsFilterOf(hash, result[start..limit], keys))
  }

  /** Where filter i ends: at the next one, or at the end of them all. */
  function LimitOf(offsets: seq<nat>, end: nat, i: nat): nat
    requires i < |offsets|
  {
    if i + 1 < |offsets| then offsets[i + 1] else end
  }

  /** Every region has the filter of the keys added for it. */
  ghost predicate RegionsOk(hash: Hash, result: Bytes, offsets: seq<nat>, regions: seq<seq<UserKey>>) {
    && |regions| == |offsets|
    && forall i :: 0 <= i < |offsets| ==> Admits(hash, result, offsets[i], LimitOf(offsets, |result|, i), regions[i])
  }

  lemma RegionsGrow(hash: Hash, result: Bytes, offsets: seq<nat>, regions: seq<seq<UserKey>>, more: Bytes,
                    keys: seq<UserKey>)
    requires RegionsOk(hash, result, offsets, regions)
    requires (more == [] <==> keys == []) && (more != [] ==> IsFilterOf(hash, more, keys))
    ensures RegionsOk(hash, result + more, offsets + [|result|], regions + [keys])
  {
    var r, o, s := result + more, offsets + [|result|], regions + [keys];
    forall i | 0 <= i < |o| ensures Admits(hash, r, o[i], LimitOf(o, |r|, i), s[i]) {
      if i < |offsets| {
        assert Admits(hash, result, offsets[i], LimitOf(offsets, |result|, i), regions[i]);
        assert LimitOf(o, |r|, i) == LimitOf(offsets, |result|, i);
        assert r[o[i]..LimitOf(o, |r|, i)] == result[offsets[i]..LimitOf(offsets, |result|, i)];
      } else {
        assert r[|result|..|r|] == more;
      }
    }
  }

  /** Offset i is in the table that begins at `table`. */
  ghost predicate OffsetIn(data: Bytes, table: nat, offsets: seq<nat>, i: nat)
    requires i < |offsets|
  {
    offsets[i] < LIMIT_32 && Has(data, table + 4 * i, Fixed32(offsets[i]))
  }

  ghost predicate OffsetsIn(data: Bytes, table: nat, offsets: seq<nat>, n: nat) {
    n <= |offsets| && forall i {:trigger OffsetIn(data, table, offsets, i)} :: 0 <= i < n ==>
        OffsetIn(data, table, offsets, i)
  }

  lemma OffsetsStay(data: Bytes, table: nat, offsets: seq<nat>, n: nat, more: Bytes)
    requires OffsetsIn(data, table, offsets, n)
    ensures OffsetsIn(data + more, table, offsets, n)
  {
    forall i | 0 <= i < n ensures OffsetIn(data + more, table, offsets, i) {
      assert OffsetIn(data, table, offsets, i);
    }
  }

  /** A finished filter block: filters, their offsets, where those begin, and
      the base. */
  ghost predicate IsFilterBlock(contents: Bytes, hash: Hash, result: Bytes, offsets: seq<nat>,
                                regions: seq<seq<UserKey>>) {
    && RegionsOk(hash, result, offsets, regions) && |result| < LIMIT_32
    && |contents| == |result| + 4 * |offsets| + 5 && result <= contents
    && OffsetsIn(contents, |result|, offsets, |offsets|)
    && Has(contents, |result| + 4 * |offsets|, Fixed32(|result|))
    && contents[|contents| - 1] == BASE_LOG
  }

  class FilterBlockBuilder {
    const hash: Hash
    const bitsPerKey: nat
    const k: nat
    var keys: seq<UserKey>
    var result: Bytes
    var offsets: seq<nat>
    var finished: bool
    /** The keys each filter was made of; those pending go to the next. */
    ghost var regions: seq<seq<UserKey>>
    ghost var filters: Bytes

    ghost predicate Valid()
      reads this
    {
      && 1 <= k <= MAX_PROBES && RegionsOk(hash, filters, offsets, regions)
      && (!finished ==> result == filters)
      && (finished ==> keys == [] && IsFilterBlock(result, hash, filters, offsets, regions))
    }

    /** How long the filters will be once the pending keys have theirs. */
    ghost function Weight(): nat
      reads this
    {
      |filters| + if keys == [] then 0 else FilterSize(|keys|, bitsPerKey)
    }

    constructor (hash: Hash, bitsPerKey: nat, k: nat)
      requires 1 <= k <= MAX_PROBES
      ensures Valid() && !finished && keys == [] && regions == [] && offsets == [] && this.hash == hash
    {
      this.hash, this.bitsPerKey, this.k := hash, bitsPerKey, k;
      keys, result, offsets, finished := [], [], [], false;
      regions, filters := [], [];
    }

    method AddKey(key: UserKey)
      requires Valid() && !finished
      modifies this`keys
      ensures Valid() && keys == old(keys) + [key]
    {
      keys := keys + [key];
    }

    method GenerateFilter()
      requires Valid() && !finished
      modifies this
      ensures Valid() && !finished && keys == [] && regions == old(regions) + [old(keys)]
      ensures |offsets| == |old(offsets)| + 1 && Weight() <= old(Weight())
    {
      if keys == [] {
        RegionsGrow(hash, result, offsets, regions, [], []);
        assert result + [] == result;
        offsets := offsets + [|result|];
        regions := regions + [[]];
        return;
      }
      var filter := CreateFilter(hash, keys, bitsPerKey, k);
      RegionsGrow(hash, result, offsets, regions, filter, keys);
      offsets := offsets + [|result|];
      result := result + filter;
      filters := result;
      regions := regions + [keys];
      keys := [];
    }

    /** A data block begins at this offset: close every region before its own. */
    method StartBlock(blockOffset: nat)
      requires Valid() && !finished && |offsets| <= blockOffset / BASE
      modifies this
      ensures Valid() && !finished && |offsets| == blockOffset / BASE && Weight() <= old(Weight())
      ensures if |old(offsets)| == blockOffset / BASE then keys == old(keys) && regions == old(regions)
              else keys == [] && old(regions) + [old(keys)] <= regions
    {
      var wanted := blockOffset / BASE;
      while wanted > |offsets|
        invariant Valid() && !finished && |offsets| <= wanted && Weight() <= old(Weight())
        invariant if |offsets| == |old(offsets)| then keys == old(keys) && regions == old(regions)
                  else keys == [] && old(regions) + [old(keys)] <= regions && |old(offsets)| < |offsets|
      {
        GenerateFilter();
      }
    }

    /** The offsets of the filters, where those begin, and the base. */
    method Finish()
      requires Valid() && !finished && Weight() < LIMIT_32
      modifies this
      ensures Valid() && finished && regions == old(regions) + (if old(keys) == [] then [] else [old(keys)])
    {
      if keys != [] {
        GenerateFilter();
      }
      AppendOffsets();
      finished := true;
    }

    method AppendOffsets()
      requires Valid() && !finished && |result| < LIMIT_32
      modifies this`result
      ensures IsFilterBlock(result, hash, filters, offsets, regions)
    {
      var arrayOffset := |result|;
      PutOffsets();
      FilterBlockIs(result, hash, filters, offsets, regions);
      result := result + (Fixed32(arrayOffset) + [BASE_LOG]);
    }

    method PutOffsets()
      requires Valid() && !finished && |result| < LIMIT_32
      modifies this`result
      ensures |result| == |filters| + 4 * |offsets| && filters <= result
      ensures OffsetsIn(result, |filters|, offsets, |offsets|)
    {
      forall i | 0 <= i < |offsets| ensures offsets[i] < LIMIT_32 {
        assert Admits(hash, filters, offsets[i], LimitOf(offsets, |filters|, i), regions[i]);
      }
      for i := 0 to |offsets|
        invariant |result| == |filters| + 4 * i && filters <= result && OffsetsIn(result, |filters|, offsets, i)
      {
        var word := Fixed32(offsets[i]);
        OffsetsExtend(result, |filters|, offsets, i, word);
        result := result + word;
      }
    }
  }

  lemma OffsetsExtend(data: Bytes, table: nat, offsets: seq<nat>, n: nat, word: Bytes)
    requires OffsetsIn(data, table, offsets, n) && n < |offsets| && offsets[n] < LIMIT_32
    requires |data| == table + 4 * n && word == Fixed32(offsets[n])
    ensures |word| == 4 && OffsetsIn(data + word, table, offsets, n + 1)
  {
    OffsetsStay(data, table, offsets, n, word);
    assert OffsetIn(data + word, table, offsets, n);
  }

  lemma FilterBlockIs(data: Bytes, hash: Hash, result: Bytes, offsets: seq<nat>, regions: seq<seq<UserKey>>)
    requires RegionsOk(hash, result, offsets, regions) && |result| < LIMIT_32
    requires |data| == |result| + 4 * |offsets| && result <= data && OffsetsIn(data, |result|, offsets, |offsets|)
    ensures IsFilterBlock(data + (Fixed32(|result|) + [BASE_LOG]), hash, result, offsets, regions)
  {
    OffsetsStay(data, |result|, offsets, |offsets|, Fixed32(|result|) + [BASE_LOG]);
  }

  /** The bytes of region i's filter. */
  ghost function RegionFilter(contents: Bytes, result: Bytes, offsets: seq<nat>, i: nat): Bytes {
    if i < |offsets| && offsets[i] <= LimitOf(offsets, |result|, i) <= |contents|
    then contents[offsets[i]..LimitOf(offsets, |result|, i)] else []
  }

  /** The filter for a block at this offset, in whatever bytes are there; None
      where nothing can be ruled out.  In a filter block it is the filter of the
      block's region, and there is none only if the region has no keys. */
  method FilterFor(contents: Bytes, blockOffset: nat, ghost hash: Hash, ghost result: Bytes, ghost offsets: seq<nat>,
                   ghost regions: seq<seq<UserKey>>) returns (filter: Option<Bytes>)
    ensures filter.Some? ==> exists start: nat, limit: nat ::
              start < limit <= |contents| && filter.value == contents[start..limit]
    ensures IsFilterBlock(contents, hash, result, offsets, regions) && blockOffset / BASE < |regions| ==>
              && (filter.None? <==> regions[blockOffset / BASE] == [])
              && RegionFilter(contents, result, offsets, blockOffset / BASE) ==
                  (if filter.Some? then filter.value else [])
              && (filter.Some? ==> IsFilterOf(hash, filter.value, regions[blockOffset / BASE]))
    ensures IsFilterBlock(contents, hash, result, offsets, regions) && |regions| <= blockOffset / BASE ==> filter.None?
  {
    if |contents| < 5 {
      return None;
    }
    var base := contents[|contents| - 1];
    if base >= 64 {
      return None;
    }
    var arrayOffset := GetFixed32(contents, |contents| - 5);
    ghost var block := IsFilterBlock(contents, hash, result, offsets, regions);
    if block {
      ShiftedByBase(blockOffset);
      BaseReads(contents, |result|, 4 * |offsets|);
    }
    if arrayOffset > |contents| - 5 {
      return None;
    }
    var num := (|contents| - 5 - arrayOffset) / 4;
    assert block ==> num == |regions|;
    var index := Shifted(blockOffset, base);
    if index >= num {
      return None;
    }
    filter := FilterAt(contents, arrayOffset, index);
    if block {
      FilterAtRegion(contents, hash, result, offsets, regions, index);
    }
  }

  /** The bytes between two offsets of the table, if they are in order. */
  ghost function SliceAt(contents: Bytes, arrayOffset: nat, index: nat): Option<Bytes>
    requires arrayOffset + 4 * index + 8 <= |contents|
  {
    var start := GetFixed32(contents, arrayOffset + 4 * index);
    var limit := GetFixed32(contents, arrayOffset + 4 * index + 4);
    if start < limit <= arrayOffset then Some(contents[start..limit]) else None
  }

  method FilterAt(contents: Bytes, arrayOffset: nat, index: nat) returns (filter: Option<Bytes>)
    requires arrayOffset + 4 * index + 8 <= |contents|
    ensures filter == SliceAt(contents, arrayOffset, index)
    ensures filter.Some? ==> exists start: nat, limit: nat ::
              start < limit <= |contents| && filter.value == contents[start..limit]
  {
    var start := GetFixed32(contents, arrayOffset + 4 * index);
    var limit := GetFixed32(contents, arrayOffset + 4 * index + 4);
    if start > limit || limit > arrayOffset {
      return None;
    }
    if start == limit {
      return None;
    }
    return Some(contents[start..limit]);
  }

  lemma FilterAtRegion(contents: Bytes, hash: Hash, result: Bytes, offsets: seq<nat>, regions: seq<seq<UserKey>>,
                       i: nat)
    requires IsFilterBlock(contents, hash, result, offsets, regions) && i < |regions|
    ensures var filter := SliceAt(contents, |result|, i);
            && (filter.None? <==> regions[i] == [])
            && RegionFilter(contents, result, offsets, i) == (if filter.Some? then filter.value else [])
            && (filter.Some? ==> IsFilterOf(hash, filter.value, regions[i]))
  {
    FilterBlockReads(contents, hash, result, offsets, regions, i);
  }

  /** key_may_match: a key is ruled out if and only if its region has a filter
      and that filter rules it out, which no key added for the region is; in
      bytes that are no filter block, only if some of them rule it out. */
  method FilterMayMatch(contents: Bytes, hash: Hash, blockOffset: nat, key: UserKey,
                        ghost result: Bytes, ghost offsets: seq<nat>, ghost regions: seq<seq<UserKey>>)
    returns (r: bool)
    ensures IsFilterBlock(contents, hash, result, offsets, regions) && blockOffset / BASE < |regions| ==>
              && (r <==> MayMatch(hash, RegionFilter(contents, result, offsets, blockOffset / BASE), key))
              && (key in regions[blockOffset / BASE] ==> r)
    ensures !r ==> exists start: nat, limit: nat ::
              start < limit <= |contents| && !MayMatch(hash, contents[start..limit], key)
  {
    var filter := FilterFor(contents, blockOffset, hash, result, offsets, regions);
    if filter.None? {
      return true;
    }
    r := KeyMayMatch(hash, filter.value, key);
    ghost var i := blockOffset / BASE;
    if IsFilterBlock(contents, hash, result, offsets, regions) && i < |regions| {
      AdmitsIff(hash, filter.value, regions[i], key);
    }
  }

  /** blockOffset >> n. */
  function Shifted(x: nat, n: nat): nat {
    if n == 0 then x else Shifted(x / 2, n - 1)
  }

  lemma ShiftedByBase(x: nat)
    ensures Shifted(x, BASE_LOG) == x / BASE
  {
    var a := x / 2 / 2 / 2 / 2;
    assert Shifted(x, 11) == Shifted(x / 2, 10) == Shifted(x / 2 / 2, 9) == Shifted(x / 2 / 2 / 2, 8) == Shifted(a, 7);
    var b := a / 2 / 2 / 2 / 2;
    assert Shifted(a, 7) == Shifted(a / 2, 6) == Shifted(a / 2 / 2, 5) == Shifted(a / 2 / 2 / 2, 4) == Shifted(b, 3);
    assert Shifted(b, 3) == Shifted(b / 2, 2) == Shifted(b / 2 / 2, 1) == b / 2 / 2 / 2;
  }

  /** Where a reader finds region i's filter. */
  lemma FilterBlockReads(contents: Bytes, hash: Hash, result: Bytes, offsets: seq<nat>, regions: seq<seq<UserKey>>,
                         i: nat)
    requires IsFilterBlock(contents, hash, result, offsets, regions) && i < |regions|
    ensures GetFixed32(contents, |result| + 4 * i) == offsets[i]
    ensures GetFixed32(contents, |result| + 4 * i + 4) == LimitOf(offsets, |result|, i)
    ensures Admits(hash, contents, offsets[i], LimitOf(offsets, |result|, i), regions[i])
    ensures LimitOf(offsets, |result|, i) <= |result|
  {
    OffsetReads(contents, result, offsets, i);
    RegionReads(contents, hash, result, offsets, regions, i);
  }

  lemma OffsetReads(contents: Bytes, result: Bytes, offsets: seq<nat>, i: nat)
    requires |result| < LIMIT_32 && |contents| == |result| + 4 * |offsets| + 5 && i < |offsets|
    requires OffsetsIn(contents, |result|, offsets, |offsets|)
    requires Has(contents, |result| + 4 * |offsets|, Fixed32(|result|))
    ensures GetFixed32(contents, |result| + 4 * i) == offsets[i]
    ensures GetFixed32(contents, |result| + 4 * i + 4) == LimitOf(offsets, |result|, i)
  {
    TableReads(contents, |result|, offsets, i);
    if i + 1 < |offsets| {
      TableReads(contents, |result|, offsets, i + 1);
    } else {
      BaseReads(contents, |result|, 4 * |offsets|);
    }
  }

  lemma RegionReads(contents: Bytes, hash: Hash, result: Bytes, offsets: seq<nat>, regions: seq<seq<UserKey>>, i: nat)
    requires RegionsOk(hash, result, offsets, regions) && result <= contents && i < |regions|
    ensures Admits(hash, contents, offsets[i], LimitOf(offsets, |result|, i), regions[i])
    ensures LimitOf(offsets, |result|, i) <= |result|
  {
    var limit := LimitOf(offsets, |result|, i);
    assert Admits(hash, result, offsets[i], limit, regions[i]);
    AdmitsIn(hash, result, contents, offsets[i], limit, regions[i]);
  }

  lemma BaseReads(contents: Bytes, size: nat, table: nat)
    requires |contents| == size + table + 5 && size < LIMIT_32 && Has(contents, size + table, Fixed32(size))
    ensures GetFixed32(contents, |contents| - 5) == size
  {
    Fixed32RoundTrip(contents, size + table, size);
  }

  lemma AdmitsIn(hash: Hash, result: Bytes, contents: Bytes, start: nat, limit: nat, keys: seq<UserKey>)
    requires Admits(hash, result, start, limit, keys) && result <= contents
    ensures Admits(hash, contents, start, limit, keys)
  {
    assert contents[start..limit] == result[start..limit];
  }

  lemma TableReads(data: Bytes, table: nat, offsets: seq<nat>, i: nat)
    requires OffsetsIn(data, table, offsets, |offsets|) && i < |offsets|
    ensures table + 4 * i + 4 <= |data| && GetFixed32(data, table + 4 * i) == offsets[i]
  {
    assert OffsetIn(data, table, offsets, i);
    Fixed32RoundTrip(data, table + 4 * i, offsets[i]);
  }
}
