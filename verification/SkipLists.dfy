/** The memtable's skip list: twelve linked lists over the same nodes, a writer
    that splices a node in bottom-up, and readers that take no lock. */
module SkipLists {
  import opened Keys
  import opened Entries

  const MAX_HEIGHT: nat := 12
  const HEAD: nat := 0

  /** next(level) of every node, by level. */
  type Nexts = map<nat, Option<nat>>

  datatype List = List(keys: map<nat, InternalKey>, next: seq<Nexts>, height: nat)

  // ------------------------------------------------------------- one level

  ghost function Before(s: seq<nat>, p: nat): nat
    requires p <= |s|
  {
    if p == 0 then HEAD else s[p - 1]
  }

  ghost function After(s: seq<nat>, p: nat): Option<nat>
    requires p <= |s|
  {
    if p < |s| then Some(s[p]) else None
  }

  ghost predicate LinkAt(nexts: Nexts, s: seq<nat>, p: nat)
    requires p <= |s|
  {
    Before(s, p) in nexts && nexts[Before(s, p)] == After(s, p)
  }

  /** The head leads through exactly these nodes. */
  ghost predicate Threaded(nexts: Nexts, s: seq<nat>) {
    forall p: nat {:trigger LinkAt(nexts, s, p)} :: p <= |s| ==> LinkAt(nexts, s, p)
  }

  ghost predicate InOrder(keys: map<nat, InternalKey>, s: seq<nat>) {
    && (forall n :: n in s ==> n in keys && n != HEAD)
    && forall i, j :: 0 <= i < j < |s| ==> Less(keys[s[i]], keys[s[j]])
  }

  /** Everything before position p is below the key, nothing after it is. */
  ghost predicate Splits(keys: map<nat, InternalKey>, s: seq<nat>, key: InternalKey, p: nat) {
    && p <= |s|
    && (forall i :: 0 <= i < p ==> s[i] in keys && Less(keys[s[i]], key))
    && forall i :: p <= i < |s| ==> s[i] in keys && AtMost(key, keys[s[i]])
  }

  function Spliced(s: seq<nat>, p: nat, n: nat): seq<nat>
    requires p <= |s|
  {
    s[..p] + [n] + s[p..]
  }

  lemma SplicedThreaded(nexts: Nexts, s: seq<nat>, p: nat, n: nat)
    requires p <= |s| && Threaded(nexts, s) && n !in s && n != HEAD && n in nexts && nexts[n] == After(s, p)
    requires HEAD !in s && forall i, j :: 0 <= i < j < |s| ==> s[i] != s[j]
    ensures Threaded(nexts[Before(s, p) := Some(n)], Spliced(s, p, n))
  {
    var t, m := Spliced(s, p, n), nexts[Before(s, p) := Some(n)];
    forall q: nat | q <= |t| ensures LinkAt(m, t, q) {
      if q > p + 1 {
        assert LinkAt(nexts, s, q - 1);
        assert t[q - 1] == s[q - 2];
      } else if q < p {
        assert LinkAt(nexts, s, q);
      }
    }
  }

  lemma SplicedInOrder(keys: map<nat, InternalKey>, s: seq<nat>, p: nat, n: nat)
    requires InOrder(keys, s) && n in keys && n != HEAD && n !in s && Splits(keys, s, keys[n], p)
    requires forall x :: x in s ==> keys[x] != keys[n]
    ensures InOrder(keys, Spliced(s, p, n))
  {
    var t := Spliced(s, p, n);
    forall i, j | 0 <= i < j < |t| ensures Less(keys[t[i]], keys[t[j]]) {
      assert j > p ==> t[j] == s[j - 1];
      assert i > p ==> t[i] == s[i - 1];
      if i == p {
        assert s[j - 1] in s && AtMost(keys[n], keys[s[j - 1]]) && keys[s[j - 1]] != keys[n];
        assert CompareInternal(keys[n], keys[s[j - 1]]) != 0;
      }
    }
  }

  // ------------------------------------------------------------ all levels

  ghost predicate LevelOk(l: List, levels: seq<seq<nat>>, i: nat)
    requires i < |l.next| && i < |levels|
  {
    Threaded(l.next[i], levels[i]) && InOrder(l.keys, levels[i])
  }

  /** Level i + 1 is a sublist of level i: both are in order. */
  ghost predicate Within(levels: seq<seq<nat>>, i: nat)
    requires i + 1 < |levels|
  {
    forall n :: n in levels[i + 1] ==> n in levels[i]
  }

  ghost predicate Ok(l: List, levels: seq<seq<nat>>) {
    && |l.next| == |levels| == MAX_HEIGHT && 1 <= l.height <= MAX_HEIGHT
    && (forall i: nat {:trigger LevelOk(l, levels, i)} :: i < MAX_HEIGHT ==> LevelOk(l, levels, i))
    && (forall i: nat {:trigger Within(levels, i)} :: i + 1 < MAX_HEIGHT ==> Within(levels, i))
    && (forall i :: l.height <= i < MAX_HEIGHT ==> levels[i] == [])
  }

  /** The first node of the bottom level at or after the key. */
  ghost predicate IsFirst(l: List, levels: seq<seq<nat>>, key: InternalKey, r: Option<nat>)
    requires |levels| > 0
  {
    exists p: nat :: Splits(l.keys, levels[0], key, p) && r == After(levels[0], p)
  }

  // ---------------------------------------------------------------- readers

  /** A search under way, or done. */
  datatype Reader = At(node: nat, level: nat) | Done(result: Option<nat>)

  ghost predicate ReaderAt(l: List, levels: seq<seq<nat>>, key: InternalKey, node: nat, level: nat) {
    && level < |levels|
    && (node == HEAD || (node in levels[level] && node in l.keys && Less(l.keys[node], key)))
  }

  /** One load of a next pointer and what the search does with it. */
  function Load(l: List, key: InternalKey, node: nat, level: nat): Reader {
    match if level < |l.next| && node in l.next[level] then l.next[level][node] else None
    case Some(n) =>
      if n in l.keys && CompareInternal(l.keys[n], key) < 0 then At(n, level)
      else if level == 0 then Done(Some(n)) else At(node, level - 1)
    case None =>
      if level == 0 then Done(None) else At(node, level - 1)
  }

  lemma ReaderPlace(l: List, levels: seq<seq<nat>>, key: InternalKey, node: nat, level: nat) returns (p: nat)
    requires Ok(l, levels) && ReaderAt(l, levels, key, node, level)
    ensures p <= |levels[level]| && node == Before(levels[level], p) && LinkAt(l.next[level], levels[level], p)
    ensures forall i :: 0 <= i < p ==> levels[level][i] in l.keys && Less(l.keys[levels[level][i]], key)
  {
    var s := levels[level];
    assert LevelOk(l, levels, level);
    if node == HEAD {
      p := 0;
    } else {
      var k :| 0 <= k < |s| && s[k] == node;
      p := k + 1;
    }
    assert LinkAt(l.next[level], s, p);
  }

  /** A load keeps the reader on the list, and a load that ends the search
      delivers the first node at or after the key at that moment. */
  lemma LoadIsRight(l: List, levels: seq<seq<nat>>, key: InternalKey, node: nat, level: nat)
    requires Ok(l, levels) && ReaderAt(l, levels, key, node, level)
    ensures node in l.next[level]
    ensures match Load(l, key, node, level)
            case At(n, k) => ReaderAt(l, levels, key, n, k)
            case Done(r) => IsFirst(l, levels, key, r)
  {
    var p := ReaderPlace(l, levels, key, node, level);
    var s := levels[level];
    assert LevelOk(l, levels, level);
    if p < |s| && Less(l.keys[s[p]], key) {
    } else if level == 0 {
      SplitsHere(l.keys, s, key, p);
    } else {
      assert Within(levels, level - 1);
    }
  }

  lemma SplitsHere(keys: map<nat, InternalKey>, s: seq<nat>, key: InternalKey, p: nat)
    requires InOrder(keys, s) && p <= |s| && (p < |s| ==> AtMost(key, keys[s[p]]))
    requires forall i :: 0 <= i < p ==> s[i] in keys && Less(keys[s[i]], key)
    ensures Splits(keys, s, key, p)
  {
    forall i | p <= i < |s| ensures s[i] in keys && AtMost(key, keys[s[i]]) {
      assert s[i] in s;
      assert p < i ==> Less(keys[s[p]], keys[s[i]]);
    }
  }

  // --------------------------------------------------------- stores and runs

  /** The list and its levels after a store. */
  datatype Moment = Moment(list: List, levels: seq<seq<nat>>)

  /** Nodes are never taken off a level and never change their key. */
  ghost predicate Grows(a: Moment, b: Moment) {
    && |a.levels| == |b.levels|
    && (forall n :: n in a.list.keys ==> n in b.list.keys && b.list.keys[n] == a.list.keys[n])
    && forall i, n {:trigger n in a.levels[i]} :: 0 <= i < |a.levels| && n in a.levels[i] ==> n in b.levels[i]
  }

  /** The states the writer's stores leave, one after another. */
  ghost predicate Stores(moments: seq<Moment>) {
    && (forall m :: 0 <= m < |moments| ==> Ok(moments[m].list, moments[m].levels))
    && forall a, b :: 0 <= a <= b < |moments| ==> Grows(moments[a], moments[b])
  }

  /** A search whose loads fall wherever they may among the stores, each at or
      after the one before. */
  ghost predicate Searches(moments: seq<Moment>, key: InternalKey, loads: seq<nat>, readers: seq<Reader>) {
    && |readers| == |loads| + 1
    && readers[0].At? && readers[0].node == HEAD && readers[0].level < MAX_HEIGHT
    && (forall j :: 0 <= j < |loads| ==> loads[j] < |moments|)
    && (forall i, j :: 0 <= i < j < |loads| ==> loads[i] <= loads[j])
    && (forall j :: 0 <= j < |loads| ==> readers[j].At?)
    && (forall j {:trigger loads[j]} :: 0 <= j < |loads| ==>
          readers[j + 1] == Load(moments[loads[j]].list, key, readers[j].node, readers[j].level))
  }

  lemma {:induction false} ReaderStaysOn(moments: seq<Moment>, key: InternalKey, loads: seq<nat>,
                                         readers: seq<Reader>, j: nat)
    requires Stores(moments) && Searches(moments, key, loads, readers) && j < |loads|
    ensures ReaderAt(moments[loads[j]].list, moments[loads[j]].levels, key, readers[j].node, readers[j].level)
    decreases j
  {
    var now := moments[loads[j]];
    assert Ok(now.list, now.levels);
    if j > 0 {
      ReaderStaysOn(moments, key, loads, readers, j - 1);
      var then' := moments[loads[j - 1]];
      assert Ok(then'.list, then'.levels);
      LoadIsRight(then'.list, then'.levels, key, readers[j - 1].node, readers[j - 1].level);
      assert Grows(then', now);
    }
  }

  /** Whatever the writer stores in between, a search that ends delivers the
      first node at or after the key in the list as it is at its last load. */
  lemma SearchIsRight(moments: seq<Moment>, key: InternalKey, loads: seq<nat>, readers: seq<Reader>)
    requires Stores(moments) && Searches(moments, key, loads, readers) && readers[|loads|].Done?
    ensures loads != [] && var last := moments[loads[|loads| - 1]];
                           |last.levels| > 0 && IsFirst(last.list, last.levels, key, readers[|loads|].result)
  {
    var j := |loads| - 1;
    ReaderStaysOn(moments, key, loads, readers, j);
    var last := moments[loads[j]];
    assert Ok(last.list, last.levels);
    LoadIsRight(last.list, last.levels, key, readers[j].node, readers[j].level);
  }
}
