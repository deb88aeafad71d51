/** The merging iterator: a cursor over the single sorted union of its
    children, under any mix of seeks and direction changes.

    A child is itself a cursor over a sorted list: an index, out of range when
    the child is not valid.  The ghost field `at` is the merged cursor; `Valid`
    ties it to where the children stand, which differs between the two
    directions.  Keys are distinct across children, as merger.hpp demands. */
module Merger {
  import opened Keys
  import opened Entries

  ghost predicate IsUnion(lists: seq<seq<Entry>>, all: seq<Entry>) {
    && Sorted(all)
    && (forall i :: 0 <= i < |lists| ==> Sorted(lists[i]))
    && (forall i, e {:trigger e in lists[i]} :: 0 <= i < |lists| && e in lists[i] ==> e in all)
    && (forall e :: e in all ==> exists i :: 0 <= i < |lists| && e in lists[i])
    && (forall i, j, e, d {:trigger e in lists[i], d in lists[j]} ::
          0 <= i < j < |lists| && e in lists[i] && d in lists[j] ==> e.key != d.key)
  }

  /** How many entries of a child lie before position p of the union. */
  ghost predicate IsSplit(all: seq<Entry>, list: seq<Entry>, p: nat, split: nat) {
    && split <= |list|
    && if p < |all| then
         && (forall j :: 0 <= j < split ==> Less(list[j].key, all[p].key))
         && (forall j :: split <= j < |list| ==> AtMost(all[p].key, list[j].key))
       else split == |list|
  }

  ghost predicate AreSplits(lists: seq<seq<Entry>>, all: seq<Entry>, p: nat, splits: seq<nat>) {
    p <= |all| && |splits| == |lists| && forall i :: 0 <= i < |lists| ==> IsSplit(all, lists[i], p, splits[i])
  }

  lemma Unordered(a: InternalKey, b: InternalKey)
    requires !Less(a, b) && !Less(b, a)
    ensures a == b
  {
    RankIsLexicographic(a.user, b.user);
  }

  lemma HolderOf(lists: seq<seq<Entry>>, all: seq<Entry>, p: nat) returns (i: nat, j: nat)
    requires IsUnion(lists, all) && p < |all|
    ensures i < |lists| && j < |lists[i]| && lists[i][j] == all[p]
  {
    assert all[p] in all;
    i :| 0 <= i < |lists| && all[p] in lists[i];
    j :| 0 <= j < |lists[i]| && lists[i][j] == all[p];
  }

  lemma PlaceOf(lists: seq<seq<Entry>>, all: seq<Entry>, i: nat, j: nat) returns (q: nat)
    requires IsUnion(lists, all) && i < |lists| && j < |lists[i]|
    ensures q < |all| && all[q] == lists[i][j]
  {
    assert lists[i][j] in lists[i];
    q :| 0 <= q < |all| && all[q] == lists[i][j];
  }

  lemma StrictlyAfter(a: InternalKey, b: InternalKey)
    requires AtMost(a, b) && a != b
    ensures Less(a, b)
  {
    if !Less(a, b) {
      Unordered(a, b);
    }
  }

  /** The smallest of the children's next entries is the union's next entry. */
  lemma SmallestIsNext(lists: seq<seq<Entry>>, all: seq<Entry>, p: nat, splits: seq<nat>, c: nat)
    requires IsUnion(lists, all) && AreSplits(lists, all, p, splits)
    requires c < |lists| && splits[c] < |lists[c]|
    requires forall i :: 0 <= i < |lists| && splits[i] < |lists[i]| ==>
               AtMost(lists[c][splits[c]].key, lists[i][splits[i]].key)
    ensures p < |all| && all[p] == lists[c][splits[c]]
  {
    var e := lists[c][splits[c]];
    assert IsSplit(all, lists[c], p, splits[c]);
    var q := PlaceOf(lists, all, c, splits[c]);
    var i, j := HolderOf(lists, all, p);
    assert IsSplit(all, lists[i], p, splits[i]);
    Unordered(all[p].key, e.key);
  }

  lemma NoneIsEnd(lists: seq<seq<Entry>>, all: seq<Entry>, p: nat, splits: seq<nat>)
    requires IsUnion(lists, all) && AreSplits(lists, all, p, splits)
    requires forall i :: 0 <= i < |lists| ==> splits[i] == |lists[i]|
    ensures p == |all|
  {
    if p < |all| {
      var i, j := HolderOf(lists, all, p);
    }
  }

  /** Stepping over all[p], held by child c, moves only that child's split. */
  lemma StepOver(lists: seq<seq<Entry>>, all: seq<Entry>, p: nat, splits: seq<nat>, c: nat)
    requires IsUnion(lists, all) && AreSplits(lists, all, p, splits)
    requires p < |all| && c < |lists| && splits[c] < |lists[c]| && lists[c][splits[c]] == all[p]
    ensures AreSplits(lists, all, p + 1, splits[c := splits[c] + 1])
  {
    forall i | 0 <= i < |lists| ensures IsSplit(all, lists[i], p + 1, splits[c := splits[c] + 1][i]) {
      OnlyHolderOf(lists, all, c, splits[c], i);
      assert IsSplit(all, lists[i], p, splits[i]);
      assert forall e :: e in lists[i] ==> e in all;
      SplitMovesOn(all, lists[i], p, splits[i], if i == c then splits[i] + 1 else splits[i]);
    }
  }

  lemma SplitMovesOn(all: seq<Entry>, list: seq<Entry>, p: nat, split: nat, next: nat)
    requires Sorted(all) && IsSplit(all, list, p, split) && p < |all|
    requires forall e :: e in list ==> e in all
    requires split <= next <= |list| && next <= split + 1
    requires next == split + 1 ==> list[split] == all[p]
    requires forall j :: next <= j < |list| ==> list[j].key != all[p].key
    ensures IsSplit(all, list, p + 1, next)
  {
    assert p + 1 < |all| ==> Less(all[p].key, all[p + 1].key);
    forall j | next <= j < |list| ensures p + 1 < |all| && AtMost(all[p + 1].key, list[j].key) {
      assert list[j] in list;
      var q :| 0 <= q < |all| && all[q] == list[j];
      assert q <= p || q == p + 1 || Less(all[p + 1].key, all[q].key);
    }
    if next < |list| {
      assert list[next] == list[next];
    }
  }

  lemma OnlyHolderOf(lists: seq<seq<Entry>>, all: seq<Entry>, c: nat, k: nat, i: nat)
    requires IsUnion(lists, all)
    requires c < |lists| && k < |lists[c]| && i < |lists|
    ensures forall j :: 0 <= j < |lists[i]| && (i != c || j != k) ==> lists[i][j].key != lists[c][k].key
  {
    forall j | 0 <= j < |lists[i]| && (i != c || j != k) ensures lists[i][j].key != lists[c][k].key {
      assert lists[i][j] in lists[i] && lists[c][k] in lists[c];
      if i == c {
        assert j < k ==> Less(lists[c][j].key, lists[c][k].key);
        assert k < j ==> Less(lists[c][k].key, lists[c][j].key);
      }
    }
  }

  // -------------------------------------------------------- the mirror image

  /** The largest of the children's previous entries is the union's previous entry. */
  lemma LargestIsPrevious(lists: seq<seq<Entry>>, all: seq<Entry>, p: nat, splits: seq<nat>, c: nat)
    requires IsUnion(lists, all) && AreSplits(lists, all, p, splits)
    requires c < |lists| && 0 < splits[c]
    requires forall i :: 0 <= i < |lists| && 0 < splits[i] ==>
               AtMost(lists[i][splits[i] - 1].key, lists[c][splits[c] - 1].key)
    ensures 0 < p && all[p - 1] == lists[c][splits[c] - 1]
  {
    var e := lists[c][splits[c] - 1];
    assert IsSplit(all, lists[c], p, splits[c]);
    var q := PlaceOf(lists, all, c, splits[c] - 1);
    assert q < p;
    var i, j := HolderOf(lists, all, p - 1);
    assert IsSplit(all, lists[i], p, splits[i]);
    assert j < splits[i];
    Unordered(all[p - 1].key, e.key);
  }

  lemma NoneIsFront(lists: seq<seq<Entry>>, all: seq<Entry>, p: nat, splits: seq<nat>)
    requires IsUnion(lists, all) && AreSplits(lists, all, p, splits)
    requires forall i :: 0 <= i < |lists| ==> splits[i] == 0
    ensures p == 0
  {
    if 0 < p {
      var i, j := HolderOf(lists, all, p - 1);
    }
  }

  lemma SplitMovesBack(all: seq<Entry>, list: seq<Entry>, p: nat, split: nat, next: nat)
    requires Sorted(all) && IsSplit(all, list, p, split) && 0 < p <= |all|
    requires forall e :: e in list ==> e in all
    requires next <= split <= next + 1
    requires next + 1 == split ==> list[next] == all[p - 1]
    requires forall j :: 0 <= j < next ==> list[j].key != all[p - 1].key
    ensures IsSplit(all, list, p - 1, next)
  {
    forall j | 0 <= j < next ensures Less(list[j].key, all[p - 1].key) {
      assert list[j] in list;
      var q :| 0 <= q < |all| && all[q] == list[j];
      assert q <= p - 1;
    }
    assert p < |all| ==> Less(all[p - 1].key, all[p].key);
  }

  /** Stepping back over all[p - 1], held by child c, moves only that child's split. */
  lemma StepBack(lists: seq<seq<Entry>>, all: seq<Entry>, p: nat, splits: seq<nat>, c: nat)
    requires IsUnion(lists, all) && AreSplits(lists, all, p, splits)
    requires 0 < p && c < |lists| && 0 < splits[c] && lists[c][splits[c] - 1] == all[p - 1]
    ensures AreSplits(lists, all, p - 1, splits[c := splits[c] - 1])
  {
    forall i | 0 <= i < |lists| ensures IsSplit(all, lists[i], p - 1, splits[c := splits[c] - 1][i]) {
      OnlyHolderOf(lists, all, c, splits[c] - 1, i);
      assert IsSplit(all, lists[i], p, splits[i]);
      assert forall e :: e in lists[i] ==> e in all;
      SplitMovesBack(all, lists[i], p, splits[i], if i == c then splits[i] - 1 else splits[i]);
    }
  }

  /** Seeking every child to a key puts them all at the union's first entry at
      or after it. */
  lemma {:induction false} SeekSplits(all: seq<Entry>, list: seq<Entry>, target: InternalKey)
    requires Sorted(all) && Sorted(list) && forall e :: e in list ==> e in all
    ensures IsSplit(all, list, FirstAtOrAfter(all, target), FirstAtOrAfter(list, target))
  {
    var p, split := FirstAtOrAfter(all, target), FirstAtOrAfter(list, target);
    forall j | split <= j < |list| ensures p < |all| && AtMost(all[p].key, list[j].key) {
      assert list[j] in list;
      var q :| 0 <= q < |all| && all[q] == list[j];
      assert split < j ==> Less(list[split].key, list[j].key);
      assert p <= q;
    }
    if split < |list| {
      assert list[split] == list[split];
    }
  }

  lemma SplitIsUnique(all: seq<Entry>, list: seq<Entry>, p: nat, a: nat, b: nat)
    requires IsSplit(all, list, p, a) && IsSplit(all, list, p, b)
    ensures a == b
  {
    assert p < |all| && a < |list| ==> AtMost(all[p].key, list[a].key);
    assert p < |all| && b < |list| ==> AtMost(all[p].key, list[b].key);
  }

  lemma {:induction false} SeekToHere(all: seq<Entry>, p: nat)
    requires Sorted(all) && p < |all|
    ensures FirstAtOrAfter(all, all[p].key) == p
  {
    var q := FirstAtOrAfter(all, all[p].key);
    assert q < |all| ==> AtMost(all[p].key, all[q].key);
  }

  lemma {:induction false} SeekAll(lists: seq<seq<Entry>>, all: seq<Entry>, target: InternalKey, splits: seq<nat>)
    requires IsUnion(lists, all) && |splits| == |lists|
    requires forall i :: 0 <= i < |lists| ==> splits[i] == FirstAtOrAfter(lists[i], target)
    ensures AreSplits(lists, all, FirstAtOrAfter(all, target), splits)
  {
    forall i | 0 <= i < |lists| ensures IsSplit(all, lists[i], FirstAtOrAfter(all, target), splits[i]) {
      assert forall e :: e in lists[i] ==> e in all;
      SeekSplits(all, lists[i], target);
    }
  }

  lemma {:induction false} SeekIsSplit(lists: seq<seq<Entry>>, all: seq<Entry>, p: nat, splits: seq<nat>, i: nat,
                                       target: InternalKey)
    requires IsUnion(lists, all) && AreSplits(lists, all, p, splits) && i < |lists|
    requires p == FirstAtOrAfter(all, target)
    ensures FirstAtOrAfter(lists[i], target) == splits[i]
  {
    assert forall e :: e in lists[i] ==> e in all;
    SeekSplits(all, lists[i], target);
    SplitIsUnique(all, lists[i], p, splits[i], FirstAtOrAfter(lists[i], target));
  }

  lemma FrontSplits(lists: seq<seq<Entry>>, all: seq<Entry>, splits: seq<nat>)
    requires IsUnion(lists, all) && |splits| == |lists|
    requires forall i :: 0 <= i < |lists| ==> splits[i] == 0
    ensures AreSplits(lists, all, 0, splits)
  {
    forall i | 0 <= i < |lists| ensures IsSplit(all, lists[i], 0, splits[i]) {
      forall j | 0 <= j < |lists[i]| ensures 0 < |all| && AtMost(all[0].key, lists[i][j].key) {
        var q := PlaceOf(lists, all, i, j);
        assert 0 < q ==> Less(all[0].key, all[q].key);
      }
      if 0 < |lists[i]| {
        assert lists[i][0] == lists[i][0];
      }
    }
  }

  // ------------------------------------------------------- a union exists

  ghost predicate KeysDiffer(a: seq<Entry>, b: seq<Entry>) {
    forall d, e :: d in a && e in b ==> d.key != e.key
  }

  ghost function Inserted(all: seq<Entry>, e: Entry): seq<Entry> {
    var k := FirstAtOrAfter(all, e.key);
    all[..k] + [e] + all[k..]
  }

  lemma {:induction false} AllAfter(all: seq<Entry>, e: Entry, j: nat)
    requires Sorted(all) && FirstAtOrAfter(all, e.key) <= j < |all| && all[j].key != e.key
    ensures Less(e.key, all[j].key)
  {
    var k := FirstAtOrAfter(all, e.key);
    assert AtMost(e.key, all[k].key);
    assert k < j ==> Less(all[k].key, all[j].key);
    StrictlyAfter(e.key, all[j].key);
  }

  lemma {:induction false} InsertedSorted(all: seq<Entry>, e: Entry)
    requires Sorted(all) && forall d :: d in all ==> d.key != e.key
    ensures Sorted(Inserted(all, e))
    ensures forall d :: d in Inserted(all, e) <==> d in all || d == e
  {
    var k := FirstAtOrAfter(all, e.key);
    forall j | k <= j < |all| ensures Less(e.key, all[j].key) {
      assert all[j] in all;
      AllAfter(all, e, j);
    }
    assert forall d :: d in all <==> d in all[..k] || d in all[k..] by {
      assert all == all[..k] + all[k..];
    }
  }

  ghost function MergedIn(all: seq<Entry>, list: seq<Entry>): seq<Entry> {
    if list == [] then all else Inserted(MergedIn(all, list[1..]), list[0])
  }

  lemma {:induction false} MergedInSorted(all: seq<Entry>, list: seq<Entry>)
    requires Sorted(all) && Sorted(list) && KeysDiffer(all, list)
    ensures Sorted(MergedIn(all, list))
    ensures forall d :: d in MergedIn(all, list) <==> d in all || d in list
  {
    if list != [] {
      var rest := list[1..];
      assert list == [list[0]] + rest;
      assert forall e :: e in rest ==> e in list;
      MergedInSorted(all, rest);
      forall d | d in MergedIn(all, rest) ensures d.key != list[0].key {
        if d in rest {
          var j :| 0 <= j < |rest| && rest[j] == d;
          assert Less(list[0].key, list[j + 1].key);
        }
      }
      InsertedSorted(MergedIn(all, rest), list[0]);
    }
  }

  /** What merger.hpp demands of the children. */
  ghost predicate Mergeable(lists: seq<seq<Entry>>) {
    && (forall i :: 0 <= i < |lists| ==> Sorted(lists[i]))
    && (forall i, j :: 0 <= i < j < |lists| ==> KeysDiffer(lists[i], lists[j]))
  }

  /** Any such children have a union, so the iterator can always be built. */
  lemma {:induction false} UnionExists(lists: seq<seq<Entry>>) returns (all: seq<Entry>)
    requires Mergeable(lists)
    ensures IsUnion(lists, all)
  {
    all := [];
    for n := 0 to |lists|
      invariant Sorted(all)
      invariant forall i, e :: 0 <= i < n && e in lists[i] ==> e in all
      invariant forall e :: e in all ==> exists i :: 0 <= i < n && e in lists[i]
    {
      forall d, e | d in all && e in lists[n] ensures d.key != e.key {
        var i :| 0 <= i < n && d in lists[i];
        assert KeysDiffer(lists[i], lists[n]);
      }
      MergedInSorted(all, lists[n]);
      ghost var previous := all;
      all := MergedIn(all, lists[n]);
    }
    forall i, j, e, d | 0 <= i < j < |lists| && e in lists[i] && d in lists[j] ensures e.key != d.key {
      assert KeysDiffer(lists[i], lists[j]);
    }
  }

  // ------------------------------------------------------------ the iterator

  datatype Direction = Forward | Reverse

  /** Where prev() takes a child that stands at n, or seek_to_last() one that
      stands past its end: out of range, written |list|, before the front. */
  function Before(list: seq<Entry>, n: nat): nat {
    if n == 0 then |list| else n - 1
  }

  ghost predicate IsSmallest(lists: seq<seq<Entry>>, positions: seq<nat>, n: nat, c: Option<nat>)
    requires n <= |lists| == |positions|
  {
    match c
    case None => forall i :: 0 <= i < n ==> positions[i] >= |lists[i]|
    case Some(c) =>
      && c < n && positions[c] < |lists[c]|
      && forall i :: 0 <= i < n && positions[i] < |lists[i]| ==>
          AtMost(lists[c][positions[c]].key, lists[i][positions[i]].key)
  }

  /** Among the children from n on. */
  ghost predicate IsLargest(lists: seq<seq<Entry>>, positions: seq<nat>, n: nat, c: Option<nat>)
    requires n <= |lists| == |positions|
  {
    match c
    case None => forall i :: n <= i < |lists| ==> positions[i] >= |lists[i]|
    case Some(c) =>
      && n <= c < |lists| && positions[c] < |lists[c]|
      && forall i :: n <= i < |lists| && positions[i] < |lists[i]| ==>
          AtMost(lists[i][positions[i]].key, lists[c][positions[c]].key)
  }

  method FindSmallest(lists: seq<seq<Entry>>, positions: seq<nat>) returns (smallest: Option<nat>)
    requires |lists| == |positions|
    ensures IsSmallest(lists, positions, |lists|, smallest)
  {
    smallest := None;
    for i := 0 to |lists|
      invariant IsSmallest(lists, positions, i, smallest)
    {
      if positions[i] < |lists[i]| {
        if smallest.None? || CompareInternal(lists[i][positions[i]].key,
            lists[smallest.value][positions[smallest.value]].key) < 0 {
          smallest := Some(i);
        }
      }
    }
  }

  method FindLargest(lists: seq<seq<Entry>>, positions: seq<nat>) returns (largest: Option<nat>)
    requires |lists| == |positions|
    ensures IsLargest(lists, positions, 0, largest)
  {
    largest := None;
    for i := |lists| downto 0
      invariant IsLargest(lists, positions, i, largest)
    {
      if positions[i] < |lists[i]| {
        if largest.None? || CompareInternal(lists[i][positions[i]].key,
            lists[largest.value][positions[largest.value]].key) > 0 {
          largest := Some(i);
        }
      }
    }
  }

  class MergingIterator {
    const lists: seq<seq<Entry>>
    var positions: seq<nat>
    var current: Option<nat>
    var direction: Direction

    ghost const all: seq<Entry>
    /** The merged cursor; |all| when the iterator is not valid. */
    ghost var at: nat
    ghost var splits: seq<nat>

    ghost predicate Valid()
      reads this
    {
      && IsUnion(lists, all)
      && |positions| == |lists|
      && at <= |all| && (current.Some? <==> at < |all|)
      && (current.Some? ==> Standing(current.value))
    }

    /** On child c's entry all[at], the other children on their side of it. */
    ghost predicate Standing(c: nat)
      requires |positions| == |lists|
      reads this
    {
      && at < |all| && c < |lists| && positions[c] < |lists[c]| && lists[c][positions[c]] == all[at]
      && AreSplits(lists, all, at, splits)
      && forall i :: 0 <= i < |lists| ==>
           positions[i] == if direction.Forward? || i == c then splits[i] else Before(lists[i], splits[i])
    }

    constructor (lists: seq<seq<Entry>>)
      requires Mergeable(lists)
      ensures Valid() && this.lists == lists && at == |all|
    {
      ghost var union := UnionExists(lists);
      this.lists, this.all := lists, union;
      positions := seq(|lists|, i requires 0 <= i < |lists| => |lists[i]|);
      current, direction := None, Forward;
      at, splits := |union|, [];
    }

    /** valid(), key() and value() together. */
    method Current() returns (e: Option<Entry>)
      requires Valid()
      ensures e == if at < |all| then Some(all[at]) else None
    {
      e := if current.Some? then Some(lists[current.value][positions[current.value]]) else None;
    }

    /** Ends every forward move: the children stand at position p of the union. */
    method SettleForward(ghost p: nat)
      requires IsUnion(lists, all) && |positions| == |lists| && direction.Forward?
      requires AreSplits(lists, all, p, positions)
      modifies this
      ensures Valid() && at == p && direction.Forward? 
    {
      current := FindSmallest(lists, positions);
      at, splits := p, positions;
      if current.Some? {
        SmallestIsNext(lists, all, p, splits, current.value);
      } else {
        NoneIsEnd(lists, all, p, splits);
      }
    }

    /** Ends every backward move: the children stand just before position p. */
    method SettleReverse(ghost p: nat, ghost s: seq<nat>)
      requires IsUnion(lists, all) && |positions| == |lists| && direction.Reverse?
      requires AreSplits(lists, all, p, s)
      requires forall i :: 0 <= i < |lists| ==> positions[i] == Before(lists[i], s[i])
      modifies this
      ensures Valid() && at == (if p == 0 then |all| else p - 1)
    {
      current := FindLargest(lists, positions);
      if current.Some? {
        LargestIsPrevious(lists, all, p, s, current.value);
        StepBack(lists, all, p, s, current.value);
        at, splits := p - 1, s[current.value := s[current.value] - 1];
      } else {
        NoneIsFront(lists, all, p, s);
        at := |all|;
      }
    }

    method Seek(target: InternalKey)
      requires Valid()
      modifies this
      ensures Valid() && at == FirstAtOrAfter(all, target)
    {
      for i := 0 to |lists|
        invariant |positions| == |lists|
        invariant forall k :: 0 <= k < i ==> positions[k] == FirstAtOrAfter(lists[k], target)
      {
        positions := positions[i := FirstAtOrAfter(lists[i], target)];
      }
      direction := Forward;
      SeekAll(lists, all, target, positions);
      SettleForward(FirstAtOrAfter(all, target));
    }

    method SeekToFirst()
      requires Valid()
      modifies this
      ensures Valid() && at == 0
    {
      for i := 0 to |lists|
        invariant |positions| == |lists|
        invariant forall k :: 0 <= k < i ==> positions[k] == 0
      {
        positions := positions[i := 0];
      }
      direction := Forward;
      FrontSplits(lists, all, positions);
      SettleForward(0);
    }

    method SeekToLast()
      requires Valid()
      modifies this
      ensures Valid() && at == if |all| == 0 then 0 else |all| - 1
    {
      ghost var ends := seq(|lists|, i requires 0 <= i < |lists| => |lists[i]|);
      for i := 0 to |lists|
        invariant |positions| == |lists|
        invariant forall k :: 0 <= k < i ==> positions[k] == Before(lists[k], ends[k])
      {
        positions := positions[i := Before(lists[i], |lists[i]|)];
      }
      direction := Reverse;
      SettleReverse(|all|, ends);
    }

    /** After a reverse scan the other children sit before the current key:
        each is first brought to the first entry at or after it. */
    method TurnForward()
      requires Valid() && current.Some? && direction.Reverse?
      modifies this`positions, this`direction
      ensures Valid() && at == old(at) && current == old(current) && direction.Forward?
    {
      var c := current.value;
      var key := lists[c][positions[c]].key;
      SeekToHere(all, at);
      for i := 0 to |lists|
        modifies this`positions
        invariant |positions| == |lists| && positions[c] == splits[c]
        invariant forall k :: 0 <= k < i ==> positions[k] == splits[k]
      {
        if i != c {
          SeekIsSplit(lists, all, at, splits, i, key);
          positions := positions[i := FirstAtOrAfter(lists[i], key)];
        }
      }
      direction := Forward;
    }

    /** After a forward scan the other children sit after the current key: each
        is brought to its last entry before it. */
    method TurnReverse()
      requires Valid() && current.Some? && direction.Forward?
      modifies this`positions, this`direction
      ensures Valid() && at == old(at) && current == old(current) && direction.Reverse?
    {
      var c := current.value;
      var key := lists[c][positions[c]].key;
      SeekToHere(all, at);
      for i := 0 to |lists|
        modifies this`positions
        invariant |positions| == |lists| && positions[c] == splits[c]
        invariant forall k :: 0 <= k < i && k != c ==> positions[k] == Before(lists[k], splits[k])
      {
        if i != c {
          SeekIsSplit(lists, all, at, splits, i, key);
          var found := FirstAtOrAfter(lists[i], key);
          if found < |lists[i]| {
            positions := positions[i := Before(lists[i], found)];
          } else {
            positions := positions[i := Before(lists[i], |lists[i]|)];
          }
        }
      }
      direction := Reverse;
    }

    method Next()
      requires Valid() && at < |all|
      modifies this
      ensures Valid() && at == old(at) + 1
    {
      if direction.Reverse? {
        TurnForward();
      }
      var c := current.value;
      assert positions == splits;
      StepOver(lists, all, at, splits, c);
      positions := positions[c := positions[c] + 1];
      SettleForward(at + 1);
    }

    method Prev()
      requires Valid() && at < |all|
      modifies this
      ensures Valid() && at == if old(at) == 0 then |all| else old(at) - 1
    {
      if direction.Forward? {
        TurnReverse();
      }
      var c := current.value;
      positions := positions[c := Before(lists[c], positions[c])];
      SettleReverse(at, splits);
    }
  }
}
