/** The two-level iterator: an index whose values name blocks, and one open
    block, together a cursor over the concatenation of the blocks. */
module TwoLevel {
  import opened Keys
  import opened Entries

  /** The index of a table or of a level: separator keys and block handles,
      and what opening a handle yields. */
  datatype Index = Index(separators: seq<InternalKey>, handles: seq<nat>, open: nat -> seq<Entry>)
  {
    ghost predicate Ok() {
      |separators| == |handles|
    }

    function Block(i: nat): seq<Entry>
      requires i < |handles|
    {
      open(handles[i])
    }

    /** The first i blocks, joined. */
    ghost function Joined(i: nat): seq<Entry>
      requires i <= |handles|
    {
      if i == 0 then [] else Joined(i - 1) + Block(i - 1)
    }

    ghost function All(): seq<Entry> {
      Joined(|handles|)
    }

    /** Each separator is at or after its block and before every later one. */
    ghost predicate Separated() {
      && Ok()
      && (forall i, j, e {:trigger separators[i], e in Block(j)} ::
            0 <= j <= i < |handles| && e in Block(j) ==> AtMost(e.key, separators[i]))
      && (forall i, j, e {:trigger separators[i], e in Block(j)} ::
            0 <= i < j < |handles| && e in Block(j) ==> Less(separators[i], e.key))
    }
  }

  lemma {:induction false} JoinedPrefix(x: Index, i: nat, j: nat)
    requires i <= j <= |x.handles|
    ensures x.Joined(i) <= x.Joined(j)
  {
    if i < j {
      JoinedPrefix(x, i, j - 1);
    }
  }

  /** Entry k of block i is entry |Joined(i)| + k of the whole. */
  lemma InBlock(x: Index, i: nat, k: nat)
    requires i < |x.handles| && k < |x.Block(i)|
    ensures |x.Joined(i)| + k < |x.All()| && x.All()[|x.Joined(i)| + k] == x.Block(i)[k]
  {
    JoinedPrefix(x, i + 1, |x.handles|);
    assert x.Joined(i + 1)[|x.Joined(i)| + k] == x.Block(i)[k];
  }

  lemma {:induction false} JoinedMembers(x: Index, i: nat, e: Entry)
    requires i <= |x.handles| && e in x.Joined(i)
    ensures exists j :: 0 <= j < i && e in x.Block(j)
  {
    if e !in x.Block(i - 1) {
      JoinedMembers(x, i - 1, e);
    }
  }

  /** First separator at or after the target: the index cursor's own seek. */
  function FirstSeparator(separators: seq<InternalKey>, target: InternalKey): (i: nat)
    ensures i <= |separators|
    ensures forall j :: 0 <= j < i ==> Less(separators[j], target)
    ensures i < |separators| ==> AtMost(target, separators[i])
  {
    if separators == [] || CompareInternal(separators[0], target) >= 0 then 0
    else 1 + FirstSeparator(separators[1..], target)
  }

  /** A position with everything before it below the target and its own entry
      not is the seek position. */
  lemma {:induction false} SeekIs(all: seq<Entry>, target: InternalKey, p: nat)
    requires Sorted(all) && p <= |all|
    requires forall k :: 0 <= k < p ==> Less(all[k].key, target)
    requires p < |all| ==> AtMost(target, all[p].key)
    ensures FirstAtOrAfter(all, target) == p
  {
    var q := FirstAtOrAfter(all, target);
    assert q < |all| ==> AtMost(target, all[q].key);
    assert p < |all| ==> AtMost(target, all[p].key);
  }

  lemma BeforeBlock(x: Index, i: nat, target: InternalKey)
    requires x.Separated() && i <= |x.handles|
    requires 0 < i ==> Less(x.separators[i - 1], target)
    ensures forall k :: 0 <= k < |x.Joined(i)| ==> Less(x.Joined(i)[k].key, target)
  {
    forall k | 0 <= k < |x.Joined(i)| ensures Less(x.Joined(i)[k].key, target) {
      var e := x.Joined(i)[k];
      JoinedMembers(x, i, e);
      var j :| 0 <= j < i && e in x.Block(j);
      assert AtMost(e.key, x.separators[i - 1]);
    }
  }

  lemma {:induction false} FromBlock(x: Index, i: nat, m: nat, k: nat)
    requires i <= m <= |x.handles| && |x.Joined(i)| <= k < |x.Joined(m)|
    ensures exists j :: i <= j < m && x.Joined(m)[k] in x.Block(j)
  {
    if k < |x.Joined(m - 1)| {
      FromBlock(x, i, m - 1, k);
    }
  }

  lemma {:induction false} JoinedSorted(x: Index, m: nat)
    requires x.Separated() && m <= |x.handles|
    requires forall i :: 0 <= i < |x.handles| ==> Sorted(x.Block(i))
    ensures Sorted(x.Joined(m))
  {
    if 0 < m {
      JoinedSorted(x, m - 1);
      var front, last := x.Joined(m - 1), x.Block(m - 1);
      forall a, b | 0 <= a < |front| && 0 <= b < |last| ensures Less(front[a].key, last[b].key) {
        JoinedMembers(x, m - 1, front[a]);
        var j :| 0 <= j < m - 1 && front[a] in x.Block(j);
        assert last[b] in x.Block(m - 1);
        assert AtMost(front[a].key, x.separators[m - 2]) && Less(x.separators[m - 2], last[b].key);
      }
      assert Sorted(last);
    }
  }

  /** Seeking the index and then the block it names finds the position in the
      whole, which may be the start of a later block. */
  lemma {:induction false} SeekInBlock(x: Index, target: InternalKey)
    requires x.Separated() && Sorted(x.All())
    ensures var i := FirstSeparator(x.separators, target);
            FirstAtOrAfter(x.All(), target) ==
              if i == |x.handles| then |x.All()| else |x.Joined(i)| + FirstAtOrAfter(x.Block(i), target)
  {
    var i := FirstSeparator(x.separators, target);
    var all := x.All();
    BeforeBlock(x, i, target);
    JoinedPrefix(x, i, |x.handles|);
    assert forall k :: 0 <= k < |x.Joined(i)| ==> Less(all[k].key, target);
    if i == |x.handles| {
      SeekIs(all, target, |all|);
    } else {
      var f := FirstAtOrAfter(x.Block(i), target);
      var p := |x.Joined(i)| + f;
      JoinedPrefix(x, i + 1, |x.handles|);
      forall k | |x.Joined(i)| <= k < p ensures Less(all[k].key, target) {
        InBlock(x, i, k - |x.Joined(i)|);
      }
      if f < |x.Block(i)| {
        InBlock(x, i, f);
      } else if p < |all| {
        FromBlock(x, i + 1, |x.handles|, p);
        var j :| i + 1 <= j < |x.handles| && all[p] in x.Block(j);
        assert Less(x.separators[i], all[p].key);
      }
      SeekIs(all, target, p);
    }
  }

  class TwoLevelIterator {
    const index: Index
    var indexPos: nat
    /** The open block, its handle and the cursor in it; None when no data
        iterator is held, and past the block's end when that is not valid. */
    var block: seq<Entry>
    var handle: nat
    var data: Option<nat>

    /** The index cursor is in range exactly when a block is open, and the open
        block is the one it names. */
    ghost predicate Open()
      reads this
    {
      && index.Separated() && Sorted(index.All())
      && indexPos <= |index.handles|
      && (data.Some? <==> indexPos < |index.handles|)
      && (data.Some? ==> handle == index.handles[indexPos] && block == index.open(handle) && data.value <= |block|)
    }

    ghost predicate Valid()
      reads this
    {
      Open() && (data.Some? ==> data.value < |block|)
    }

    /** The cursor in the whole; the number of entries when not valid. */
    ghost function At(): nat
      requires Open()
      reads this
    {
      if data.Some? then |index.Joined(indexPos)| + data.value else |index.All()|
    }

    constructor (index: Index)
      requires index.Separated() && forall i :: 0 <= i < |index.handles| ==> Sorted(index.Block(i))
      ensures Valid() && this.index == index && At() == |index.All()|
    {
      JoinedSorted(index, |index.handles|);
      this.index, indexPos := index, |index.handles|;
      block, handle, data := [], 0, None;
    }

    method Current() returns (e: Option<Entry>)
      requires Valid()
      ensures e == if At() < |index.All()| then Some(index.All()[At()]) else None
    {
      if data.Some? {
        InBlock(index, indexPos, data.value);
        e := Some(block[data.value]);
      } else {
        e := None;
      }
    }

    /** Opens the block the index names, unless it is the one already open.
        Where the cursor in it then stands is for the caller to set. */
    method InitDataBlock()
      requires index.Separated() && Sorted(index.All()) && indexPos <= |index.handles|
      requires data.Some? ==> block == index.open(handle) && data.value <= |block|
      modifies this`block, this`handle, this`data
      ensures Open()
    {
      if indexPos == |index.handles| {
        data := None;
      } else if data.None? || index.handles[indexPos] != handle {
        handle := index.handles[indexPos];
        block := index.open(handle);
        data := Some(|block|);
      }
    }

    /** Leaves the whole cursor where it is, on the block that holds its entry. */
    method SkipEmptyBlocksForward()
      requires Open()
      modifies this
      ensures Valid() && At() == old(At())
    {
      while data.None? || data.value == |block|
        invariant Open() && At() == old(At())
        decreases |index.handles| - indexPos
      {
        if indexPos == |index.handles| {
          return;
        }
        assert index.Joined(indexPos + 1) == index.Joined(indexPos) + index.Block(indexPos);
        indexPos := indexPos + 1;
        InitDataBlock();
        if data.Some? {
          data := Some(0);
        }
      }
    }

    /** With the open block used up backwards, moves to the last entry before
        it, or past the front. */
    method SkipEmptyBlocksBackward()
      requires Open()
      modifies this
      ensures Valid()
      ensures old(data.Some? && data.value < |block|) ==> At() == old(At())
      ensures old(data.Some? && data.value == |block|) ==>
                At() == old(if index.Joined(indexPos) == [] then |index.All()| else |index.Joined(indexPos)| - 1)
      ensures old(data.None?) ==> At() == |index.All()|
    {
      ghost var before, moved := |index.Joined(indexPos)|, false;
      while data.None? || data.value == |block|
        invariant Open()
        invariant !moved ==> indexPos == old(indexPos) && data == old(data) && block == old(block)
        invariant moved ==> old(data.Some? && data.value == |block|)
        invariant moved && data.Some? && data.value < |block| ==> At() == before - 1
        invariant data.Some? && data.value == |block| ==> |index.Joined(indexPos)| == before
        invariant moved && data.None? ==> before == 0
        decreases if indexPos < |index.handles| then indexPos + 1 else 0
      {
        if indexPos == |index.handles| {
          return;
        }
        ghost var was := indexPos;
        indexPos := if indexPos == 0 then |index.handles| else indexPos - 1;
        InitDataBlock();
        if data.Some? {
          assert index.Joined(was) == index.Joined(indexPos) + index.Block(indexPos);
          data := Some(if block == [] then 0 else |block| - 1);
        }
        moved := true;
      }
    }

    method Seek(target: InternalKey)
      requires Valid()
      modifies this
      ensures Valid() && At() == FirstAtOrAfter(index.All(), target)
    {
      indexPos := FirstSeparator(index.separators, target);
      InitDataBlock();
      if data.Some? {
        data := Some(FirstAtOrAfter(block, target));
      }
      SeekInBlock(index, target);
      SkipEmptyBlocksForward();
    }

    method SeekToFirst()
      requires Valid()
      modifies this
      ensures Valid() && At() == 0
    {
      indexPos := 0;
      InitDataBlock();
      if data.Some? {
        data := Some(0);
      }
      SkipEmptyBlocksForward();
    }

    method SeekToLast()
      requires Valid()
      modifies this
      ensures Valid() && At() == if index.All() == [] then 0 else |index.All()| - 1
    {
      var n := |index.handles|;
      indexPos := if n == 0 then 0 else n - 1;
      InitDataBlock();
      if data.Some? {
        assert index.All() == index.Joined(n - 1) + index.Block(n - 1);
        data := Some(if block == [] then 0 else |block| - 1);
      }
      SkipEmptyBlocksBackward();
    }

    method Next()
      requires Valid() && At() < |index.All()|
      modifies this
      ensures Valid() && At() == old(At()) + 1
    {
      data := Some(data.value + 1);
      SkipEmptyBlocksForward();
    }

    method Prev()
      requires Valid() && At() < |index.All()|
      modifies this
      ensures Valid() && At() == if old(At()) == 0 then |index.All()| else old(At()) - 1
    {
      InBlock(index, indexPos, data.value);
      data := Some(if data.value == 0 then |block| else data.value - 1);
      SkipEmptyBlocksBackward();
    }
  }
}
