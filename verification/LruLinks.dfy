/** Two circular lists threaded through the same nodes, each with a sentinel.
    A node is unlinked without knowing which list it is on. */
module LruLinks {
  datatype Links = Links(next: map<nat, nat>, prev: map<nat, nat>)

  /** The sentinels: evictable entries, and entries with users. */
  const LRU: nat := 0
  const IN_USE: nat := 1

  ghost predicate NoDuplicates(s: seq<nat>) {
    forall i, j :: 0 <= i < j < |s| ==> s[i] != s[j]
  }

  /** The list and its sentinel, once around. */
  ghost function Around(head: nat, s: seq<nat>): seq<nat> {
    [head] + s + [head]
  }

  ghost predicate Linked(l: Links, a: nat, b: nat) {
    a in l.next && l.next[a] == b && b in l.prev && l.prev[b] == a
  }

  ghost predicate LinkedAt(l: Links, head: nat, s: seq<nat>, i: nat)
    requires i <= |s|
  {
    Linked(l, Around(head, s)[i], Around(head, s)[i + 1])
  }

  ghost predicate Ring(l: Links, head: nat, s: seq<nat>) {
    && head !in s && NoDuplicates(s)
    && forall i {:trigger LinkedAt(l, head, s, i)} :: 0 <= i <= |s| ==> LinkedAt(l, head, s, i)
  }

  function Removed(l: Links, e: nat): Links
    requires e in l.next && e in l.prev
  {
    Links(l.next[l.prev[e] := l.next[e]], l.prev[l.next[e] := l.prev[e]])
  }

  function Appended(l: Links, head: nat, e: nat): Links
    requires head in l.prev
  {
    var last := l.prev[head];
    Links(l.next[e := head][last := e], l.prev[e := last][head := e])
  }

  ghost function Without(s: seq<nat>, k: nat): seq<nat>
    requires k < |s|
  {
    s[..k] + s[k + 1..]
  }

  lemma WithoutMembers(s: seq<nat>, k: nat)
    requires k < |s| && NoDuplicates(s)
    ensures NoDuplicates(Without(s, k))
    ensures forall n :: n in Without(s, k) <==> n in s && n != s[k]
  {
    var w := Without(s, k);
    forall n | n in s && n != s[k] ensures n in w {
      var i :| 0 <= i < |s| && s[i] == n;
      assert w[if i < k then i else i - 1] == n;
    }
  }

  lemma RingAt(l: Links, head: nat, s: seq<nat>, i: nat)
    requires Ring(l, head, s) && i <= |s|
    ensures Linked(l, Around(head, s)[i], Around(head, s)[i + 1])
  {
    assert LinkedAt(l, head, s, i);
  }

  lemma AroundWithout(head: nat, s: seq<nat>, k: nat, i: nat)
    requires k < |s| && i <= |s|
    ensures Around(head, Without(s, k))[i] == Around(head, s)[if i <= k then i else i + 1]
  {
    if 0 < i < |s| {
      assert Around(head, Without(s, k))[i] == Without(s, k)[i - 1];
    }
  }

  lemma AroundDistinct(head: nat, s: seq<nat>, i: nat, j: nat)
    requires head !in s && NoDuplicates(s) && i < j <= |s| + 1 && (i == 0 ==> j <= |s|)
    ensures Around(head, s)[i] != Around(head, s)[j]
  {
  }

  lemma RemovedLink(l: Links, head: nat, s: seq<nat>, k: nat, i: nat)
    requires Ring(l, head, s) && k < |s| && i < |s|
    requires Linked(l, Around(head, s)[k], s[k]) && Linked(l, s[k], Around(head, s)[k + 2])
    ensures LinkedAt(Removed(l, s[k]), head, Without(s, k), i)
  {
    AroundWithout(head, s, k, i);
    AroundWithout(head, s, k, i + 1);
    if i != k {
      var j := if i < k then i else i + 1;
      RingAt(l, head, s, j);
      if j < k {
        AroundDistinct(head, s, j, k);
        AroundDistinct(head, s, j + 1, k + 2);
      } else {
        AroundDistinct(head, s, k, j);
        AroundDistinct(head, s, k + 2, j + 1);
      }
    }
  }

  lemma RemovedRing(l: Links, head: nat, s: seq<nat>, k: nat)
    requires Ring(l, head, s) && k < |s|
    ensures s[k] in l.next && s[k] in l.prev && Ring(Removed(l, s[k]), head, Without(s, k))
  {
    WithoutMembers(s, k);
    RingAt(l, head, s, k);
    RingAt(l, head, s, k + 1);
    assert Around(head, s)[k + 1] == s[k];
    forall i | 0 <= i <= |s| - 1 ensures LinkedAt(Removed(l, s[k]), head, Without(s, k), i) {
      RemovedLink(l, head, s, k, i);
    }
  }

  lemma AppendedRing(l: Links, head: nat, s: seq<nat>, e: nat)
    requires Ring(l, head, s) && e != head && e !in s
    ensures head in l.prev && Ring(Appended(l, head, e), head, s + [e])
  {
    var c, d := Around(head, s), Around(head, s + [e]);
    RingAt(l, head, s, |s|);
    var r := Appended(l, head, e);
    forall i | 0 <= i <= |s| + 1 ensures LinkedAt(r, head, s + [e], i) {
      if i < |s| {
        RingAt(l, head, s, i);
        assert d[i] == c[i] && d[i + 1] == c[i + 1] == s[i];
        assert c[i] != c[|s|];
      }
    }
  }

  /** Links that agree on a ring's nodes thread the same ring. */
  lemma RingFrame(l: Links, r: Links, head: nat, s: seq<nat>)
    requires Ring(l, head, s)
    requires forall n :: n == head || n in s ==>
               && n in r.next && n in r.prev && n in l.next && n in l.prev
               && r.next[n] == l.next[n] && r.prev[n] == l.prev[n]
    ensures Ring(r, head, s)
  {
    var c := Around(head, s);
    forall i | 0 <= i <= |s| ensures LinkedAt(r, head, s, i) {
      RingAt(l, head, s, i);
    }
  }

  /** Both lists, with no entry on both. */
  ghost predicate Threads(l: Links, lru: seq<nat>, inUse: seq<nat>) {
    && Ring(l, LRU, lru) && Ring(l, IN_USE, inUse) && IN_USE !in lru && LRU !in inUse
    && forall n :: n in lru ==> n !in inUse
  }

  lemma OnRing(l: Links, head: nat, s: seq<nat>, n: nat)
    requires Ring(l, head, s) && (n == head || n in s)
    ensures n in l.next && n in l.prev
    ensures l.next[n] == head || l.next[n] in s
    ensures l.prev[n] == head || l.prev[n] in s
  {
    var c := Around(head, s);
    if n == head {
      RingAt(l, head, s, 0);
      RingAt(l, head, s, |s|);
    } else {
      var i :| 0 <= i < |s| && s[i] == n;
      RingAt(l, head, s, i);
      RingAt(l, head, s, i + 1);
      assert c[i + 1] == n;
    }
  }

  /** Unlinking from one ring leaves the other as it was. */
  lemma RemovedOther(l: Links, head: nat, s: seq<nat>, e: nat, other: nat, t: seq<nat>)
    requires Ring(l, head, s) && e in s && Ring(l, other, t)
    requires head != other && head !in t && other !in s && forall n :: n in s ==> n !in t
    ensures e in l.next && e in l.prev && Ring(Removed(l, e), other, t)
  {
    OnRing(l, head, s, e);
    forall n | n == other || n in t ensures n in l.next && n in l.prev {
      OnRing(l, other, t, n);
    }
    RingFrame(l, Removed(l, e), other, t);
  }

  lemma AppendedOther(l: Links, head: nat, s: seq<nat>, e: nat, other: nat, t: seq<nat>)
    requires Ring(l, head, s) && Ring(l, other, t) && e != other && e !in t
    requires head != other && head !in t && other !in s && forall n :: n in s ==> n !in t
    ensures head in l.prev && Ring(Appended(l, head, e), other, t)
  {
    OnRing(l, head, s, head);
    forall n | n == other || n in t ensures n in l.next && n in l.prev {
      OnRing(l, other, t, n);
    }
    RingFrame(l, Appended(l, head, e), other, t);
  }

  lemma UnlinkFromLru(l: Links, lru: seq<nat>, inUse: seq<nat>, k: nat)
    requires Threads(l, lru, inUse) && k < |lru|
    ensures lru[k] in l.next && lru[k] in l.prev && Threads(Removed(l, lru[k]), Without(lru, k), inUse)
  {
    RemovedRing(l, LRU, lru, k);
    RemovedOther(l, LRU, lru, lru[k], IN_USE, inUse);
    WithoutMembers(lru, k);
  }

  lemma UnlinkFromInUse(l: Links, lru: seq<nat>, inUse: seq<nat>, k: nat)
    requires Threads(l, lru, inUse) && k < |inUse|
    ensures inUse[k] in l.next && inUse[k] in l.prev && Threads(Removed(l, inUse[k]), lru, Without(inUse, k))
  {
    RemovedRing(l, IN_USE, inUse, k);
    RemovedOther(l, IN_USE, inUse, inUse[k], LRU, lru);
    WithoutMembers(inUse, k);
  }

  lemma AppendToLru(l: Links, lru: seq<nat>, inUse: seq<nat>, e: nat)
    requires Threads(l, lru, inUse) && e !in lru && e !in inUse && e != LRU && e != IN_USE
    ensures LRU in l.prev && Threads(Appended(l, LRU, e), lru + [e], inUse)
  {
    AppendedRing(l, LRU, lru, e);
    AppendedOther(l, LRU, lru, e, IN_USE, inUse);
  }

  lemma AppendToInUse(l: Links, lru: seq<nat>, inUse: seq<nat>, e: nat)
    requires Threads(l, lru, inUse) && e !in lru && e !in inUse && e != LRU && e != IN_USE
    ensures IN_USE in l.prev && Threads(Appended(l, IN_USE, e), lru, inUse + [e])
  {
    AppendedRing(l, IN_USE, inUse, e);
    AppendedOther(l, IN_USE, inUse, e, LRU, lru);
  }

  /** oldest(): the sentinel itself when the list is empty. */
  lemma Oldest(l: Links, lru: seq<nat>, inUse: seq<nat>)
    requires Threads(l, lru, inUse)
    ensures LRU in l.next && l.next[LRU] == if lru == [] then LRU else lru[0]
  {
    RingAt(l, LRU, lru, 0);
  }
}
