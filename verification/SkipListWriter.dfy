/** The writer's side of the skip list: the search that finds where to splice,
    and the stores of an insertion, one by one. */
module SkipListWriter {
  import opened Keys
  import opened Entries
  import opened SkipLists

  lemma {:induction false} InBottom(l: List, levels: seq<seq<nat>>, i: nat, n: nat)
    requires Ok(l, levels) && i < MAX_HEIGHT && n in levels[i]
    ensures n in levels[0]
    decreases i
  {
    if i > 0 {
      assert Within(levels, i - 1);
      InBottom(l, levels, i - 1, n);
    }
  }

  /** Where a node goes on a level: after prev, at this position. */
  ghost predicate SpotOk(l: List, levels: seq<seq<nat>>, key: InternalKey, i: nat, prev: nat, spot: nat)
    requires i < |levels|
  {
    Splits(l.keys, levels[i], key, spot) && prev == Before(levels[i], spot)
  }

  /** The search is after the first p nodes of its level, all below the key. */
  ghost predicate Passed(l: List, levels: seq<seq<nat>>, key: InternalKey, level: nat, node: nat, p: nat) {
    && level < |levels| && p <= |levels[level]| && node == Before(levels[level], p)
    && forall i :: 0 <= i < p ==> levels[level][i] in l.keys && Less(l.keys[levels[level][i]], key)
  }

  /** A node passed on one level has a place on the next one down. */
  lemma DropDown(l: List, levels: seq<seq<nat>>, key: InternalKey, level: nat, node: nat, p: nat) returns (q: nat)
    requires Ok(l, levels) && 0 < level < MAX_HEIGHT && Passed(l, levels, key, level, node, p)
    ensures Passed(l, levels, key, level - 1, node, q)
  {
    q := 0;
    if node != HEAD {
      var below := levels[level - 1];
      assert Within(levels, level - 1) && LevelOk(l, levels, level - 1) && LevelOk(l, levels, level);
      assert levels[level][p - 1] == node && node in levels[level - 1 + 1];
      assert node in below;
      var k :| 0 <= k < |below| && below[k] == node;
      q := k + 1;
      forall i | 0 <= i < q ensures below[i] in l.keys && Less(l.keys[below[i]], key) {
        assert below[i] in below;
        assert i < k ==> Less(l.keys[below[i]], l.keys[node]);
      }
    }
  }

  /** What the next pointer of the node last passed says. */
  lemma NextPassed(l: List, levels: seq<seq<nat>>, key: InternalKey, level: nat, node: nat, p: nat)
    requires Ok(l, levels) && Passed(l, levels, key, level, node, p)
    ensures level < |l.next| && node in l.next[level] && l.next[level][node] == After(levels[level], p)
    ensures p < |levels[level]| ==> levels[level][p] in l.keys && levels[level][p] != HEAD
    ensures (p < |levels[level]| ==> AtMost(key, l.keys[levels[level][p]])) ==> Splits(l.keys, levels[level], key, p)
  {
    assert LevelOk(l, levels, level);
    assert LinkAt(l.next[level], levels[level], p);
    assert p < |levels[level]| ==> levels[level][p] in levels[level];
    if p < |levels[level]| ==> AtMost(key, l.keys[levels[level][p]]) {
      SplitsHere(l.keys, levels[level], key, p);
    }
  }

  /** find_greater_or_equal on a list no one is storing into: the first node at
      or after the key, and the node to splice after on every level in use. */
  method FindGreaterOrEqual(l: List, key: InternalKey, ghost levels: seq<seq<nat>>)
    returns (r: Option<nat>, prev: map<nat, nat>, ghost spots: map<nat, nat>)
    requires Ok(l, levels)
    ensures IsFirst(l, levels, key, r)
    ensures SpotsOk(l, levels, key, prev, spots, 0, l.height)
  {
    var node: nat, level: nat := HEAD, l.height - 1;
    prev, spots := map[], map[];
    ghost var p: nat := 0;
    while true
      invariant level < l.height && Passed(l, levels, key, level, node, p)
      invariant SpotsOk(l, levels, key, prev, spots, level + 1, l.height)
      decreases level, |levels[level]| - p
    {
      NextPassed(l, levels, key, level, node, p);
      var next := l.next[level][node];
      if next.Some? && CompareInternal(l.keys[next.value], key) < 0 {
        node := next.value;
        p := p + 1;
      } else {
        prev, spots := prev[level := node], spots[level := p];
        if level == 0 {
          return next, prev, spots;
        }
        p := DropDown(l, levels, key, level, node, p);
        level := level - 1;
      }
    }
  }

  ghost predicate SpotsOk(l: List, levels: seq<seq<nat>>, key: InternalKey, prev: map<nat, nat>, spots: map<nat, nat>,
                          from: nat, to: nat) {
    to <= |levels| && forall i: nat {:trigger i in prev} {:trigger i in spots} :: from <= i < to ==>
      i in prev && i in spots && SpotOk(l, levels, key, i, prev[i], spots[i])
  }

  /** find_less_than: the last node below the key, or the head. */
  method FindLessThan(l: List, key: InternalKey, ghost levels: seq<seq<nat>>) returns (node: nat, ghost p: nat)
    requires Ok(l, levels)
    ensures Splits(l.keys, levels[0], key, p) && node == Before(levels[0], p)
  {
    node, p := HEAD, 0;
    var level: nat := l.height - 1;
    while true
      invariant level < l.height && Passed(l, levels, key, level, node, p)
      decreases level, |levels[level]| - p
    {
      NextPassed(l, levels, key, level, node, p);
      var next := l.next[level][node];
      if next.Some? && CompareInternal(l.keys[next.value], key) < 0 {
        node := next.value;
        p := p + 1;
      } else {
        if level == 0 {
          return;
        }
        p := DropDown(l, levels, key, level, node, p);
        level := level - 1;
      }
    }
  }

  // ------------------------------------------------------------- the stores

  lemma KeyStored(l: List, levels: seq<seq<nat>>, n: nat, key: InternalKey)
    requires Ok(l, levels) && n !in l.keys && n != HEAD
    ensures var m := l.(keys := l.keys[n := key]); Ok(m, levels) && Grows(Moment(l, levels), Moment(m, levels))
  {
    var m := l.(keys := l.keys[n := key]);
    forall i: nat | i < MAX_HEIGHT ensures LevelOk(m, levels, i) {
      assert LevelOk(l, levels, i);
    }
  }

  lemma HeightStored(l: List, levels: seq<seq<nat>>, height: nat)
    requires Ok(l, levels) && l.height <= height <= MAX_HEIGHT
    ensures Ok(l.(height := height), levels) && Grows(Moment(l, levels), Moment(l.(height := height), levels))
  {
    var m := l.(height := height);
    forall i: nat | i < MAX_HEIGHT ensures LevelOk(m, levels, i) {
      assert LevelOk(l, levels, i);
    }
  }

  /** A store into next(level) of a node. */
  function Stored(l: List, i: nat, n: nat, next: Option<nat>): List
    requires i < |l.next|
  {
    var nexts: Nexts := l.next[i][n := next];
    l.(next := l.next[i := nexts])
  }

  /** Into a node not on the level: nobody sees it. */
  lemma OwnStored(l: List, levels: seq<seq<nat>>, i: nat, n: nat, next: Option<nat>)
    requires Ok(l, levels) && i < MAX_HEIGHT && n !in levels[i] && n != HEAD
    ensures Ok(Stored(l, i, n, next), levels) && Grows(Moment(l, levels), Moment(Stored(l, i, n, next), levels))
  {
    var m := Stored(l, i, n, next);
    forall k: nat | k < MAX_HEIGHT ensures LevelOk(m, levels, k) {
      assert LevelOk(l, levels, k);
      forall p: nat | p <= |levels[k]| ensures LinkAt(m.next[k], levels[k], p) {
        assert LinkAt(l.next[k], levels[k], p);
      }
    }
  }

  /** Into the node before: the new node is on this level, complete. */
  lemma Published(l: List, levels: seq<seq<nat>>, i: nat, n: nat, p: nat)
    requires Ok(l, levels) && i < l.height && n in l.keys && n !in levels[i] && n != HEAD
    requires (i > 0 ==> n in levels[i - 1])
    requires Splits(l.keys, levels[i], l.keys[n], p) && n in l.next[i] && l.next[i][n] == After(levels[i], p)
    requires forall x :: x in levels[i] ==> x in l.keys && l.keys[x] != l.keys[n]
    ensures var m, more := Stored(l, i, Before(levels[i], p), Some(n)), levels[i := Spliced(levels[i], p, n)];
            Ok(m, more) && Grows(Moment(l, levels), Moment(m, more))
  {
    var m, more := Stored(l, i, Before(levels[i], p), Some(n)), levels[i := Spliced(levels[i], p, n)];
    assert LevelOk(l, levels, i);
    SplicedThreaded(l.next[i], levels[i], p, n);
    SplicedInOrder(l.keys, levels[i], p, n);
    forall k: nat | k < MAX_HEIGHT ensures LevelOk(m, more, k) {
      assert k != i ==> LevelOk(l, levels, k);
    }
    assert forall x :: x in levels[i] ==> x in more[i];
    forall k: nat | k + 1 < MAX_HEIGHT ensures Within(more, k) {
      assert Within(levels, k);
    }
  }

  lemma StoresNext(moments: seq<Moment>, next: Moment)
    requires Stores(moments) && moments != [] && Grows(moments[|moments| - 1], next) && Ok(next.list, next.levels)
    ensures Stores(moments + [next])
  {
    var more := moments + [next];
    forall a, b | 0 <= a <= b < |more| ensures Grows(more[a], more[b]) {
      if b == |moments| && a < b {
        assert Grows(moments[a], moments[|moments| - 1]);
      }
    }
  }

  class SkipList {
    var list: List
    var unused: nat
    /** The nodes of each level, and every state a store has left. */
    ghost var levels: seq<seq<nat>>
    ghost var moments: seq<Moment>

    ghost predicate Valid()
      reads this
    {
      && Ok(list, levels) && Stores(moments) && moments != [] && moments[|moments| - 1] == Moment(list, levels)
      && HEAD < unused && forall n :: n in list.keys ==> n < unused
    }

    constructor ()
      ensures Valid() && levels[0] == []
    {
      var ends: Nexts := map[HEAD := None];
      list := List(map[], seq(MAX_HEIGHT, _ => ends), 1);
      levels := seq(MAX_HEIGHT, _ => []);
      unused := HEAD + 1;
      new;
      forall i: nat | i < MAX_HEIGHT ensures LevelOk(list, levels, i) {
        forall p: nat | p <= |levels[i]| ensures LinkAt(list.next[i], levels[i], p) {
        }
      }
      moments := [Moment(list, levels)];
    }

    /** The bottom level is one of these at every state from this one on. */
    ghost predicate BottomIs(from: nat, a: seq<nat>, b: seq<nat>)
      reads this
    {
      forall m :: from <= m < |moments| ==>
        |moments[m].levels| > 0 && (moments[m].levels[0] == a || moments[m].levels[0] == b)
    }

    ghost method Record(l: List, more: seq<seq<nat>>)
      requires Stores(moments) && moments != [] && Ok(l, more) && Grows(moments[|moments| - 1], Moment(l, more))
      modifies this`moments
      ensures Stores(moments) && moments == old(moments) + [Moment(l, more)]
    {
      StoresNext(moments, Moment(l, more));
      moments := moments + [Moment(l, more)];
    }

    /** A node on one more level: first its own pointer, then the one that
        leads to it. */
    method Splice(i: nat, node: nat, prev: nat, ghost spot: nat)
      requires Valid() && i < list.height && node in list.keys && node !in levels[i] && node != HEAD
      requires i > 0 ==> node in levels[i - 1]
      requires SpotOk(list, levels, list.keys[node], i, prev, spot)
      requires forall x :: x in levels[i] ==> x in list.keys && list.keys[x] != list.keys[node]
      modifies this`list, this`levels, this`moments
      ensures Valid() && list.keys == old(list.keys) && list.height == old(list.height)
      ensures levels == old(levels)[i := Spliced(old(levels[i]), spot, node)]
      ensures exists m :: moments == old(moments) + [Moment(m, old(levels)), Moment(list, levels)]
    {
      assert LevelOk(list, levels, i);
      assert LinkAt(list.next[i], levels[i], spot);
      OwnStored(list, levels, i, node, list.next[i][prev]);
      list := Stored(list, i, node, list.next[i][prev]);
      Record(list, levels);
      ghost var m := list;
      Published(list, levels, i, node, spot);
      list := Stored(list, i, prev, Some(node));
      levels := levels[i := Spliced(levels[i], spot, node)];
      Record(list, levels);
      assert moments == old(moments) + [Moment(m, old(levels)), Moment(list, levels)];
    }

    /** A new node with this key, on no level yet; the height of the list may
        grow before any node is that high. */
    method Allocate(key: InternalKey, height: nat) returns (node: nat)
      requires Valid() && 1 <= height <= MAX_HEIGHT
      modifies this
      ensures Valid() && levels == old(levels) && node !in old(list.keys) && node != HEAD
      ensures list.keys == old(list.keys)[node := key]
      ensures list.height == if height > old(list.height) then height else old(list.height)
      ensures old(moments) <= moments && forall m :: |old(moments)| <= m < |moments| ==> moments[m].levels == levels
    {
      if height > list.height {
        HeightStored(list, levels, height);
        list := list.(height := height);
        Record(list, levels);
      }
      node, unused := unused, unused + 1;
      KeyStored(list, levels, node, key);
      list := list.(keys := list.keys[node := key]);
      Record(list, levels);
    }

    /** Splices bottom-up.  Every state on the way has the old bottom level or
        the new one. */
    method SpliceAll(node: nat, height: nat, prev: map<nat, nat>, ghost spots: map<nat, nat>)
      requires Valid() && 1 <= height <= list.height && node in list.keys && node != HEAD
      requires NewTo(list.keys, levels, node) && SpotsOk(list, levels, list.keys[node], prev, spots, 0, height)
      modifies this`list, this`levels, this`moments
      ensures Valid() && list.keys == old(list.keys) && list.height == old(list.height) && old(moments) <= moments
      ensures SplicedTo(old(levels), levels, spots, node, height)
      ensures levels[0] == Spliced(old(levels[0]), spots[0], node)
      ensures BottomIs(|old(moments)|, old(levels[0]), levels[0])
    {
      ghost var bottom := Spliced(levels[0], spots[0], node);
      for i := 0 to height
        invariant Valid() && list.keys == old(list.keys) && list.height == old(list.height) && old(moments) <= moments
        invariant SplicedTo(old(levels), levels, spots, node, i)
        invariant forall k :: i <= k < MAX_HEIGHT ==> levels[k] == old(levels)[k]
        invariant i > 0 ==> node in levels[i - 1] && levels[0] == bottom
        invariant BottomIs(|old(moments)|, old(levels[0]), bottom)
      {
        assert SpotOk(old(list), old(levels), list.keys[node], i, prev[i], spots[i]);
        ghost var was := levels;
        Splice(i, node, prev[i], spots[i]);
        SplicedOneMore(old(levels), was, levels, spots, node, i);
        assert levels[i][spots[i]] == node;
      }
    }

    /** The height is drawn at random; any is allowed. */
    method Insert(key: InternalKey, height: nat) returns (node: nat, ghost p: nat)
      requires Valid() && 1 <= height <= MAX_HEIGHT
      requires forall n :: n in levels[0] && n in list.keys ==> list.keys[n] != key
      modifies this
      ensures Valid() && node !in old(list.keys) && list.keys == old(list.keys)[node := key]
      ensures list.height == if height > old(list.height) then height else old(list.height)
      ensures Splits(old(list.keys), old(levels[0]), key, p) && levels[0] == Spliced(old(levels[0]), p, node)
      ensures OnLevels(old(list.keys), old(levels), levels, key, node, height)
      ensures old(moments) <= moments && BottomIs(|old(moments)|, old(levels[0]), levels[0])
    {
      var found, prev, spots := FindGreaterOrEqual(list, key, levels);
      prev, spots := ExtendPrev(list, key, height, prev, levels, spots);
      assert SpotOk(list, levels, key, 0, prev[0], spots[0]);
      p := spots[0];
      node := Allocate(key, height);
      NodeIsNew(old(list), levels, node, key);
      SpotsKeep(old(list), list, levels, key, prev, spots, height);
      SpliceAll(node, height, prev, spots);
      SplicedInPlace(old(list), old(levels), levels, key, prev, spots, node, height);
    }
  }

  /** On the levels below n the node has been spliced in at its spot. */
  ghost predicate SplicedTo(was: seq<seq<nat>>, now: seq<seq<nat>>, spots: map<nat, nat>, node: nat, n: nat) {
    |now| == |was| && forall k: nat {:trigger SplicedAt(was, now, spots, node, n, k)} :: k < |was| ==>
      SplicedAt(was, now, spots, node, n, k)
  }

  ghost predicate SplicedAt(was: seq<seq<nat>>, now: seq<seq<nat>>, spots: map<nat, nat>, node: nat, n: nat, k: nat)
    requires k < |was| && k < |now|
  {
    if k < n then k in spots && spots[k] <= |was[k]| && now[k] == Spliced(was[k], spots[k], node)
    else now[k] == was[k]
  }

  lemma SplicedOneMore(was: seq<seq<nat>>, now: seq<seq<nat>>, next: seq<seq<nat>>, spots: map<nat, nat>, node: nat,
                       i: nat)
    requires SplicedTo(was, now, spots, node, i) && i < |was| && i in spots && spots[i] <= |was[i]|
    requires now[i] == was[i] && next == now[i := Spliced(was[i], spots[i], node)]
    ensures SplicedTo(was, next, spots, node, i + 1)
  {
    var n := i + 1;
    forall k: nat | k < |was| ensures SplicedAt(was, next, spots, node, n, k) {
      assert SplicedAt(was, now, spots, node, i, k);
    }
  }

  /** The node is in its place on the levels below its height, and on no other. */
  ghost predicate OnLevels(keys: map<nat, InternalKey>, was: seq<seq<nat>>, now: seq<seq<nat>>, key: InternalKey,
                           node: nat, height: nat) {
    |now| == |was| && forall i: nat {:trigger OnLevel(keys, was, now, key, node, height, i)} :: i < |was| ==>
      OnLevel(keys, was, now, key, node, height, i)
  }

  ghost predicate OnLevel(keys: map<nat, InternalKey>, was: seq<seq<nat>>, now: seq<seq<nat>>, key: InternalKey,
                          node: nat, height: nat, i: nat)
    requires i < |was| && i < |now|
  {
    if i < height then exists p: nat :: Splits(keys, was[i], key, p) && now[i] == Spliced(was[i], p, node)
    else now[i] == was[i]
  }

  lemma SplicedInPlace(l: List, was: seq<seq<nat>>, now: seq<seq<nat>>, key: InternalKey, prev: map<nat, nat>,
                       spots: map<nat, nat>, node: nat, height: nat)
    requires SpotsOk(l, was, key, prev, spots, 0, height) && SplicedTo(was, now, spots, node, height)
    ensures OnLevels(l.keys, was, now, key, node, height)
  {
    forall i: nat | i < |was| ensures OnLevel(l.keys, was, now, key, node, height, i) {
      assert SplicedAt(was, now, spots, node, height, i);
      if i < height {
        assert SpotOk(l, was, key, i, prev[i], spots[i]);
      }
    }
  }

  /** On no level, and with a key no node of any level has. */
  ghost predicate NewTo(keys: map<nat, InternalKey>, levels: seq<seq<nat>>, node: nat)
    requires node in keys
  {
    forall i, x {:trigger x in levels[i]} :: 0 <= i < |levels| && x in levels[i] ==>
        x != node && x in keys && keys[x] != keys[node]
  }

  lemma NodeIsNew(l: List, levels: seq<seq<nat>>, node: nat, key: InternalKey)
    requires Ok(l, levels) && node !in l.keys && forall n :: n in levels[0] && n in l.keys ==> l.keys[n] != key
    ensures NewTo(l.keys[node := key], levels, node)
  {
    var keys := l.keys[node := key];
    forall i, x {:trigger x in levels[i]} | 0 <= i < |levels| && x in levels[i]
      ensures x != node && x in keys && keys[x] != keys[node] {
      assert LevelOk(l, levels, i);
      InBottom(l, levels, i, x);
      assert x in levels[0] && x in l.keys;
      assert x != node && keys[x] == l.keys[x];
    }
  }

  /** A new node's key moves no spot. */
  lemma SpotsKeep(l: List, m: List, levels: seq<seq<nat>>, key: InternalKey, prev: map<nat, nat>,
                  spots: map<nat, nat>, height: nat)
    requires SpotsOk(l, levels, key, prev, spots, 0, height) && forall n :: n in l.keys ==>
               n in m.keys && m.keys[n] == l.keys[n]
    ensures SpotsOk(m, levels, key, prev, spots, 0, height)
  {
    forall i: nat | i < height ensures i in prev && i in spots && SpotOk(m, levels, key, i, prev[i], spots[i]) {
      assert SpotOk(l, levels, key, i, prev[i], spots[i]);
    }
  }

  /** Above the list's height, a node is spliced after the head. */
  method ExtendPrev(l: List, key: InternalKey, height: nat, prev: map<nat, nat>, ghost levels: seq<seq<nat>>,
                    ghost spots: map<nat, nat>)
    returns (prev': map<nat, nat>, ghost spots': map<nat, nat>)
    requires Ok(l, levels) && 1 <= height <= MAX_HEIGHT && SpotsOk(l, levels, key, prev, spots, 0, l.height)
    ensures SpotsOk(l, levels, key, prev', spots', 0, height)
  {
    prev', spots' := prev, spots;
    if height > l.height {
      for i := l.height to height
        invariant SpotsOk(l, levels, key, prev', spots', 0, i)
      {
        prev', spots' := prev'[i := HEAD], spots'[i := 0];
        assert SpotOk(l, levels, key, i, HEAD, 0);
      }
    }
  }
}
