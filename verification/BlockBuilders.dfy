/** BlockBuilder: prefix sharing, restart points and the table of them. */
module BlockBuilders {
  import opened Entries
  import opened Encoding
  import opened BlockFormat

  /** One more entry, restarting or not. */
  ghost function Grown(l: Layout, pair: Pair, shared: nat, restart: bool): Layout
    requires l.Shaped() && shared <= |pair.key|
  {
    Layout(l.list + [pair], l.offsets + [l.offsets[|l.list|] + |EntryBytes(shared, pair)|], l.shared + [shared],
           if restart then l.starts + [|l.list|] else l.starts)
  }

  lemma GrownLaid(region: Bytes, l: Layout, pair: Pair, shared: nat, restart: bool)
    requires IsLaid(region, l) && shared <= |pair.key| < LIMIT_32 && |pair.value| < LIMIT_32
    requires shared != 0 ==>
               && l.list != [] && shared <= |l.list[|l.list| - 1].key|
               && l.list[|l.list| - 1].key[..shared] == pair.key[..shared]
    ensures IsLaid(region + EntryBytes(shared, pair), Grown(l, pair, shared, restart))
  {
    var e := EntryBytes(shared, pair);
    var g := Grown(l, pair, shared, restart);
    forall i | 0 <= i < |g.list| ensures EntryOk(region + e, g, i) {
      if i < |l.list| {
        assert EntryOk(region, l, i);
      }
    }
  }

  lemma GrownStarts(l: Layout, pair: Pair, shared: nat, restart: bool)
    requires l.Shaped() && StartsOk(l) && shared <= |pair.key| && ((restart || l.list == []) ==> shared == 0)
    requires restart ==> l.list != []
    ensures StartsOk(Grown(l, pair, shared, restart))
  {
  }

  lemma {:induction false} PrefixIs(a: Bytes, b: Bytes, n: nat)
    requires n <= |a| && n <= |b| && a[..n] == b[..n] && (n < |a| && n < |b| ==> a[n] != b[n])
    ensures n == SharedPrefix(a, b)
  {
    var m := SharedPrefix(a, b);
    assert forall i :: 0 <= i < n ==> a[..n][i] == b[..n][i];
    assert forall i :: 0 <= i < m ==> a[..m][i] == b[..m][i];
  }

  /** The restart points are where the restarting entries begin. */
  ghost predicate RestartsAre(restarts: seq<nat>, l: Layout) {
    && |restarts| == |l.starts|
    && forall k :: 0 <= k < |restarts| ==> l.starts[k] < |l.offsets| && restarts[k] == l.offsets[l.starts[k]]
  }

  /** The last key, and how many entries there are since the last restart. */
  ghost predicate Counts(interval: nat, l: Layout, sinceRestart: nat, lastKey: Bytes) {
    && lastKey == (if l.list == [] then [] else l.list[|l.list| - 1].key)
    && l.starts != [] && sinceRestart == |l.list| - l.starts[|l.starts| - 1] <= interval
  }

  lemma GrownCounts(interval: nat, l: Layout, pair: Pair, shared: nat, sinceRestart: nat, lastKey: Bytes)
    requires l.Shaped() && shared <= |pair.key| && 1 <= interval && Counts(interval, l, sinceRestart, lastKey)
    ensures var restart := sinceRestart >= interval;
            Counts(interval, Grown(l, pair, shared, restart), if restart then 1 else sinceRestart + 1, pair.key)
  {
  }

  /** Restarts come every so many entries. */
  ghost predicate Spaced(interval: nat, starts: seq<nat>) {
    forall k :: 0 < k < |starts| ==> starts[k] == starts[k - 1] + interval
  }

  /** Unless it restarts, entry i shares all it can with the key before it. */
  ghost predicate SharesAll(l: Layout, i: nat)
    requires |l.shared| == |l.list| && 0 < i < |l.list|
  {
    i in l.starts || l.shared[i] == SharedPrefix(l.list[i - 1].key, l.list[i].key)
  }

  ghost predicate Tight(interval: nat, l: Layout)
    requires l.Shaped()
  {
    Spaced(interval, l.starts) && forall i {:trigger SharesAll(l, i)} :: 0 < i < |l.list| ==> SharesAll(l, i)
  }

  lemma GrownShares(l: Layout, pair: Pair, shared: nat, restart: bool, i: nat)
    requires l.Shaped() && shared <= |pair.key| && 0 < i <= |l.list| && (i < |l.list| ==> SharesAll(l, i))
    requires restart || shared == SharedPrefix(l.list[|l.list| - 1].key, pair.key)
    ensures SharesAll(Grown(l, pair, shared, restart), i)
  {
    var g := Grown(l, pair, shared, restart);
    assert restart ==> g.starts[|l.starts|] == |l.list|;
    assert i in l.starts ==> i in g.starts;
  }

  lemma GrownTight(interval: nat, l: Layout, pair: Pair, shared: nat, sinceRestart: nat, lastKey: Bytes)
    requires l.Shaped() && shared <= |pair.key| && 1 <= interval && Tight(interval, l)
    requires Counts(interval, l, sinceRestart, lastKey)
    requires shared == if sinceRestart < interval then SharedPrefix(lastKey, pair.key) else 0
    ensures Tight(interval, Grown(l, pair, shared, sinceRestart >= interval))
  {
    var g := Grown(l, pair, shared, sinceRestart >= interval);
    forall i | 0 < i < |g.list| ensures SharesAll(g, i) {
      GrownShares(l, pair, shared, sinceRestart >= interval, i);
    }
  }

  /** The bytes of one more entry, and the layout they bring about. */
  method NextEntry(ghost interval: nat, shared: nat, pair: Pair, ghost region: Bytes, ghost l: Layout,
                   ghost sinceRestart: nat,
                   ghost lastKey: Bytes, ghost was: seq<nat>, ghost now: seq<nat>) returns (bytes: Bytes,
                       ghost g: Layout)
    requires IsLaid(region, l) && StartsOk(l) && RestartsAre(was, l) && Counts(interval, l, sinceRestart, lastKey)
    requires 1 <= interval && Tight(interval, l)
    requires |pair.key| < LIMIT_32 && |pair.value| < LIMIT_32
    requires shared == if sinceRestart < interval then SharedPrefix(lastKey, pair.key) else 0
    requires now == if sinceRestart < interval then was else was + [|region|]
    ensures IsLaid(region + bytes, g) && StartsOk(g) && RestartsAre(now, g) && Tight(interval, g)
    ensures Counts(interval, g, if sinceRestart < interval then sinceRestart + 1 else 1, pair.key)
    ensures g.list == l.list + [pair] && g.starts == if sinceRestart < interval then l.starts else l.starts + [|l.list|]
  {
    ghost var restart := sinceRestart >= interval;
    GrownCounts(interval, l, pair, shared, sinceRestart, lastKey);
    GrownLaid(region, l, pair, shared, restart);
    GrownStarts(l, pair, shared, restart);
    GrownRestarts(region, l, pair, shared, restart, was, now);
    GrownTight(interval, l, pair, shared, sinceRestart, lastKey);
    bytes := EntryBytes(shared, pair);
    g := Grown(l, pair, shared, restart);
  }

  class BlockBuilder {
    const interval: nat
    var buffer: Bytes
    var restarts: seq<nat>
    var sinceRestart: nat
    var lastKey: Bytes
    var finished: bool
    ghost var layout: Layout
    ghost var region: Bytes

    ghost predicate Valid()
      reads this
    {
      && 1 <= interval && IsLaid(region, layout) && StartsOk(layout) && RestartsAre(restarts, layout)
      && Counts(interval, layout, sinceRestart, lastKey) && Tight(interval, layout)
      && (!finished ==> buffer == region)
      && (finished ==> IsBlock(buffer, region, layout))
    }

    constructor (interval: nat)
      requires 1 <= interval
      ensures Valid() && !finished && layout.list == [] && this.interval == interval
    {
      this.interval := interval;
      buffer, restarts, sinceRestart, lastKey, finished := [], [0], 0, [], false;
      layout, region := Layout([], [0], [], [0]), [];
    }

    /** The prefix loop. */
    method CountShared(key: Bytes) returns (shared: nat)
      ensures shared == SharedPrefix(lastKey, key)
    {
      shared := 0;
      var limit := if |lastKey| < |key| then |lastKey| else |key|;
      while shared < limit && lastKey[shared] == key[shared]
        invariant shared <= limit && lastKey[..shared] == key[..shared]
      {
        shared := shared + 1;
      }
      PrefixIs(lastKey, key, shared);
    }

    /** Whether the next entry restarts, and how much it shares if not. */
    method NextShared(key: Bytes) returns (shared: nat)
      requires |restarts| > 0
      modifies this`restarts, this`sinceRestart
      ensures if old(sinceRestart) < interval
              then shared == SharedPrefix(lastKey, key) && restarts == old(restarts) &&
                  sinceRestart == old(sinceRestart)
              else shared == 0 && restarts == old(restarts) + [|buffer|] && sinceRestart == 0
    {
      shared := 0;
      if sinceRestart < interval {
        shared := CountShared(key);
      } else {
        restarts := restarts + [|buffer|];
        sinceRestart := 0;
      }
    }

    method Add(key: Bytes, value: Bytes)
      requires Valid() && !finished && |key| < LIMIT_32 && |value| < LIMIT_32
      modifies this
      ensures Valid() && !finished && layout.list == old(layout.list) + [Pair(key, value)]
      ensures layout.starts == if old(sinceRestart) < interval then old(layout.starts)
          else old(layout.starts) + [|old(layout.list)|]
    {
      ghost var since, was := sinceRestart, restarts;
      var shared := NextShared(key);
      var bytes, l := NextEntry(interval, shared, Pair(key, value), region, layout, since, lastKey, was, restarts);
      buffer := buffer + bytes;
      lastKey := key;
      sinceRestart := sinceRestart + 1;
      layout, region := l, buffer;
    }

    /** The loop of finish(). */
    method PutRestarts()
      requires Valid() && !finished && |buffer| < LIMIT_32
      modifies this`buffer
      ensures |buffer| == |region| + 4 * |restarts| && region <= buffer
      ensures RestartsIn(buffer, |region|, layout, |restarts|)
    {
      forall k | 0 <= k < |restarts| ensures restarts[k] < LIMIT_32 {
        OffsetsGrow(region, layout, layout.starts[k], |layout.list|);
      }
      for k := 0 to |restarts|
        invariant |buffer| == |region| + 4 * k && region <= buffer && RestartsIn(buffer, |region|, layout, k)
      {
        RestartsExtend(buffer, |region|, layout, k, Fixed32(restarts[k]));
        buffer := buffer + Fixed32(restarts[k]);
      }
    }

    /** The restart points and their count. */
    method Finish()
      requires Valid() && !finished && |buffer| < LIMIT_32 && |restarts| < LIMIT_32
      modifies this`buffer, this`finished
      ensures Valid() && finished && IsBlock(buffer, region, layout) && Tight(interval, layout)
    {
      PutRestarts();
      RestartsStay(buffer, |region|, layout, |restarts|, Fixed32(|restarts|));
      buffer := buffer + Fixed32(|restarts|);
      finished := true;
    }
  }

  /** The first n restart points are in the table. */
  ghost predicate RestartsIn(data: Bytes, table: nat, l: Layout, n: nat) {
    && l.Shaped() && n <= |l.starts|
    && forall k {:trigger RestartOk(data, table, l, k)} :: 0 <= k < n ==> RestartOk(data, table, l, k)
  }

  lemma RestartsStay(data: Bytes, table: nat, l: Layout, n: nat, more: Bytes)
    requires RestartsIn(data, table, l, n)
    ensures RestartsIn(data + more, table, l, n)
  {
    forall k | 0 <= k < n ensures RestartOk(data + more, table, l, k) {
      assert RestartOk(data, table, l, k);
    }
  }

  lemma RestartsExtend(data: Bytes, table: nat, l: Layout, n: nat, more: Bytes)
    requires RestartsIn(data, table, l, n) && n < |l.starts| && |data| == table + 4 * n
    requires l.starts[n] <= |l.list| && l.offsets[l.starts[n]] < LIMIT_32 && more == Fixed32(l.offsets[l.starts[n]])
    ensures RestartsIn(data + more, table, l, n + 1)
  {
    RestartsStay(data, table, l, n, more);
    assert RestartOk(data + more, table, l, n);
  }

  lemma GrownRestarts(region: Bytes, l: Layout, pair: Pair, shared: nat, restart: bool, was: seq<nat>, now: seq<nat>)
    requires IsLaid(region, l) && shared <= |pair.key| && RestartsAre(was, l)
    requires now == if restart then was + [|region|] else was
    ensures RestartsAre(now, Grown(l, pair, shared, restart))
  {
    var g := Grown(l, pair, shared, restart);
    forall k | 0 <= k < |now| ensures g.starts[k] < |g.offsets| && now[k] == g.offsets[g.starts[k]] {
      assert k < |was| ==> g.starts[k] == l.starts[k] && now[k] == was[k];
    }
  }
}
