/** What the shard keeps true of its counts, lists, charges and frees. */
module LruBooks {
  import opened LruLinks
  import opened LruTable

  /** Entry numbers start after the two sentinels. */
  const FIRST: nat := 2

  // ----------------------------------------------------------------- charges

  ghost function Sum(info: map<nat, Info>, s: set<nat>): nat
    requires s <= info.Keys
  {
    if s == {} then 0 else var x :| x in s; info[x].charge + Sum(info, s - {x})
  }

  lemma {:induction false} SumWithout(info: map<nat, Info>, s: set<nat>, x: nat)
    requires s <= info.Keys && x in s
    ensures Sum(info, s) == info[x].charge + Sum(info, s - {x})
  {
    var y :| y in s && Sum(info, s) == info[y].charge + Sum(info, s - {y});
    if y != x {
      SumWithout(info, s - {y}, x);
      SumWithout(info, s - {x}, y);
      assert s - {y} - {x} == s - {x} - {y};
    }
  }

  lemma {:induction false} SumSame(info: map<nat, Info>, other: map<nat, Info>, s: set<nat>)
    requires s <= info.Keys && s <= other.Keys && forall x :: x in s ==> info[x] == other[x]
    ensures Sum(info, s) == Sum(other, s)
  {
    if s != {} {
      var x :| x in s;
      SumWithout(info, s, x);
      SumWithout(other, s, x);
      SumSame(info, other, s - {x});
    }
  }

  // -------------------------------------------------------------- references

  /** References are the users' handles, plus one while cached, plus one where
      a reference is still to be dropped. */
  ghost predicate CountOk(refs: map<nat, nat>, handles: multiset<nat>, inCache: set<nat>, id: nat, owed: nat) {
    && (id in handles || id in inCache || owed > 0 ==> id in refs)
    && (id in refs ==> refs[id] == handles[id] + (if id in inCache then 1 else 0) + owed && refs[id] > 0)
  }

  ghost predicate Counted(refs: map<nat, nat>, handles: multiset<nat>, inCache: set<nat>) {
    forall id {:trigger CountOk(refs, handles, inCache, id, 0)} :: CountOk(refs, handles, inCache, id, 0)
  }

  ghost predicate Owed(refs: map<nat, nat>, handles: multiset<nat>, inCache: set<nat>, id: nat) {
    && CountOk(refs, handles, inCache, id, 1)
    && forall x {:trigger CountOk(refs, handles, inCache, x, 0)} :: x != id ==> CountOk(refs, handles, inCache, x, 0)
  }

  /** One reference fewer; the entry goes with its last. */
  function Dropped(refs: map<nat, nat>, id: nat): map<nat, nat>
    requires id in refs && refs[id] > 0
  {
    if refs[id] == 1 then refs - {id} else refs[id := refs[id] - 1]
  }

  lemma CountedHeld(refs: map<nat, nat>, handles: multiset<nat>, inCache: set<nat>, id: nat)
    requires Counted(refs, handles, inCache) && id in refs
    ensures Counted(refs[id := refs[id] + 1], handles + multiset{id}, inCache)
  {
    var refs', handles' := refs[id := refs[id] + 1], handles + multiset{id};
    forall x ensures CountOk(refs', handles', inCache, x, 0) {
      assert CountOk(refs, handles, inCache, x, 0);
    }
  }

  lemma OwedBack(refs: map<nat, nat>, handles: multiset<nat>, inCache: set<nat>, id: nat)
    requires Counted(refs, handles, inCache) && id in handles
    ensures Owed(refs, handles - multiset{id}, inCache, id)
    ensures (refs[id] == 2 && id in inCache <==> handles[id] == 1 && id in inCache)
  {
    assert CountOk(refs, handles, inCache, id, 0);
    forall x | x != id ensures CountOk(refs, handles - multiset{id}, inCache, x, 0) {
      assert CountOk(refs, handles, inCache, x, 0);
    }
  }

  lemma OwedAfter(refs: map<nat, nat>, handles: multiset<nat>, inCache: set<nat>, id: nat)
    requires Counted(refs, handles, inCache) && id in inCache
    ensures Owed(refs, handles, inCache - {id}, id)
  {
    assert CountOk(refs, handles, inCache, id, 0);
    forall x | x != id ensures CountOk(refs, handles, inCache - {id}, x, 0) {
      assert CountOk(refs, handles, inCache, x, 0);
    }
  }

  lemma CountedNew(refs: map<nat, nat>, handles: multiset<nat>, inCache: set<nat>, id: nat)
    requires Counted(refs, handles, inCache) && id !in refs
    ensures handles[id] == 0 && id !in inCache && Counted(refs[id := 2], handles + multiset{id}, inCache + {id})
  {
    assert CountOk(refs, handles, inCache, id, 0);
    var refs', handles', inCache' := refs[id := 2], handles + multiset{id}, inCache + {id};
    forall x ensures CountOk(refs', handles', inCache', x, 0) {
      assert CountOk(refs, handles, inCache, x, 0);
    }
  }

  lemma DroppedCounts(refs: map<nat, nat>, handles: multiset<nat>, inCache: set<nat>, id: nat)
    requires Owed(refs, handles, inCache, id)
    ensures id in refs && refs[id] > 0 && (refs[id] == 1 ==> id !in inCache)
    ensures Counted(Dropped(refs, id), handles, inCache)
  {
    forall x ensures CountOk(Dropped(refs, id), handles, inCache, x, 0) {
      assert x != id ==> CountOk(refs, handles, inCache, x, 0);
    }
  }

  // ------------------------------------------------------------------- frees

  ghost predicate FreedOk(freed: multiset<nat>, refs: map<nat, nat>, next: nat, id: nat) {
    && (id in refs ==> FIRST <= id < next)
    && freed[id] == if FIRST <= id < next && id !in refs then 1 else 0
  }

  /** The deleter runs once for an entry, when it is gone. */
  ghost predicate FreedOnce(freed: multiset<nat>, refs: map<nat, nat>, next: nat) {
    forall id {:trigger FreedOk(freed, refs, next, id)} :: FreedOk(freed, refs, next, id)
  }

  lemma FreedNew(freed: multiset<nat>, refs: map<nat, nat>, next: nat)
    requires FreedOnce(freed, refs, next) && FIRST <= next
    ensures next !in refs && FreedOnce(freed, refs[next := 2], next + 1)
  {
    assert FreedOk(freed, refs, next, next);
    var refs', next' := refs[next := 2], next + 1;
    forall x ensures FreedOk(freed, refs', next', x) {
      assert FreedOk(freed, refs, next, x);
    }
  }

  lemma FreedSame(freed: multiset<nat>, refs: map<nat, nat>, other: map<nat, nat>, next: nat)
    requires FreedOnce(freed, refs, next) && refs.Keys == other.Keys
    ensures FreedOnce(freed, other, next)
  {
    forall x ensures FreedOk(freed, other, next, x) {
      assert FreedOk(freed, refs, next, x);
      assert x in refs <==> x in refs.Keys;
    }
  }

  lemma DroppedFrees(freed: multiset<nat>, refs: map<nat, nat>, next: nat, id: nat)
    requires FreedOnce(freed, refs, next) && id in refs && refs[id] > 0
    ensures FreedOnce(if refs[id] == 1 then freed + multiset{id} else freed, Dropped(refs, id), next)
  {
    var f := if refs[id] == 1 then freed + multiset{id} else freed;
    forall x ensures FreedOk(f, Dropped(refs, id), next, x) {
      assert FreedOk(freed, refs, next, x);
    }
  }

  lemma SumNew(info: map<nat, Info>, s: set<nat>, id: nat, i: Info)
    requires s <= info.Keys && id !in info
    ensures Sum(info[id := i], s + {id}) == Sum(info, s) + i.charge
  {
    SumWithout(info[id := i], s + {id}, id);
    assert s + {id} - {id} == s;
    SumSame(info, info[id := i], s);
  }

  // ------------------------------------------------------------------- lists

  /** On the evictable list: cached and not held.  In use: cached and held. */
  ghost predicate PlaceOk(lru: seq<nat>, inUse: seq<nat>, inCache: set<nat>, handles: multiset<nat>, id: nat) {
    (id in lru <==> id in inCache && handles[id] == 0) && (id in inUse <==> id in inCache && handles[id] > 0)
  }

  ghost predicate Listed(lru: seq<nat>, inUse: seq<nat>, inCache: set<nat>, handles: multiset<nat>) {
    forall id {:trigger PlaceOk(lru, inUse, inCache, handles, id)} :: PlaceOk(lru, inUse, inCache, handles, id)
  }

  ghost predicate AgeOk(lru: seq<nat>, releasedAt: map<nat, nat>, clock: nat, i: nat)
    requires i < |lru|
  {
    lru[i] in releasedAt && releasedAt[lru[i]] < clock
  }

  ghost predicate Earlier(lru: seq<nat>, releasedAt: map<nat, nat>, i: nat, j: nat)
    requires i < j < |lru|
  {
    lru[i] in releasedAt && lru[j] in releasedAt && releasedAt[lru[i]] < releasedAt[lru[j]]
  }

  /** The evictable list is in the order the entries were let go. */
  ghost predicate Aged(lru: seq<nat>, releasedAt: map<nat, nat>, clock: nat) {
    && (forall i: nat {:trigger AgeOk(lru, releasedAt, clock, i)} :: i < |lru| ==> AgeOk(lru, releasedAt, clock, i))
    && forall i: nat, j: nat {:trigger Earlier(lru, releasedAt, i, j)} :: i < j < |lru| ==>
        Earlier(lru, releasedAt, i, j)
  }

  ghost function Minus(s: seq<nat>, id: nat): seq<nat> {
    if i :| 0 <= i < |s| && s[i] == id then Without(s, i) else s
  }

  lemma MinusIs(s: seq<nat>, k: nat)
    requires k < |s| && NoDuplicates(s)
    ensures Minus(s, s[k]) == Without(s, k)
  {
    var i :| 0 <= i < |s| && s[i] == s[k] && Minus(s, s[k]) == Without(s, i);
  }

  lemma MinusMembers(s: seq<nat>, id: nat)
    requires NoDuplicates(s)
    ensures NoDuplicates(Minus(s, id)) && forall n :: n in Minus(s, id) <==> n in s && n != id
  {
    if id in s {
      var k :| 0 <= k < |s| && s[k] == id;
      MinusIs(s, k);
      WithoutMembers(s, k);
    }
  }

  lemma AgedWithout(lru: seq<nat>, releasedAt: map<nat, nat>, clock: nat, k: nat)
    requires Aged(lru, releasedAt, clock) && k < |lru|
    ensures Aged(Without(lru, k), releasedAt, clock)
  {
    var w := Without(lru, k);
    forall i: nat | i < |w| ensures AgeOk(w, releasedAt, clock, i) {
      assert AgeOk(lru, releasedAt, clock, if i < k then i else i + 1);
    }
    forall i: nat, j: nat | i < j < |w| ensures Earlier(w, releasedAt, i, j) {
      assert Earlier(lru, releasedAt, if i < k then i else i + 1, if j < k then j else j + 1);
    }
  }

  lemma AgedMinus(lru: seq<nat>, releasedAt: map<nat, nat>, clock: nat, id: nat)
    requires Aged(lru, releasedAt, clock) && NoDuplicates(lru)
    ensures Aged(Minus(lru, id), releasedAt, clock)
  {
    if id in lru {
      var k :| 0 <= k < |lru| && Minus(lru, id) == Without(lru, k);
      AgedWithout(lru, releasedAt, clock, k);
    }
  }

  lemma AgedAppend(lru: seq<nat>, releasedAt: map<nat, nat>, clock: nat, id: nat)
    requires Aged(lru, releasedAt, clock) && id !in lru
    ensures Aged(lru + [id], releasedAt[id := clock], clock + 1)
  {
    var more, at, clock' := lru + [id], releasedAt[id := clock], clock + 1;
    forall i: nat | i < |more| ensures AgeOk(more, at, clock', i) {
      assert i < |lru| ==> AgeOk(lru, releasedAt, clock, i);
    }
    forall i: nat, j: nat | i < j < |more| ensures Earlier(more, at, i, j) {
      assert AgeOk(lru, releasedAt, clock, i);
      assert j < |lru| ==> Earlier(lru, releasedAt, i, j);
    }
  }

  /** Forgetting an entry that is not a member changes no chain. */
  lemma ForgetOk(b: Buckets, hash: Hash64, info: map<nat, Info>, members: set<nat>, id: nat)
    requires TableOk(b, hash, info, members) && id !in members
    ensures TableOk(b, hash, info - {id}, members)
  {
    var less := info - {id};
    forall h | h in b ensures ChainOk(h, b[h], hash, less, members) {
      assert ChainOk(h, b[h], hash, info, members);
    }
    forall x | x in members ensures Chained(b, hash, less, x) {
      assert Chained(b, hash, info, x);
    }
  }

  lemma LearnOk(b: Buckets, hash: Hash64, info: map<nat, Info>, members: set<nat>, id: nat, i: Info)
    requires TableOk(b, hash, info, members) && id !in info
    ensures TableOk(b, hash, info[id := i], members)
  {
    var more := info[id := i];
    forall h | h in b ensures ChainOk(h, b[h], hash, more, members) {
      assert ChainOk(h, b[h], hash, info, members);
    }
    forall x | x in members ensures Chained(b, hash, more, x) {
      assert Chained(b, hash, info, x);
    }
  }

  lemma ListedMinus(lru: seq<nat>, inUse: seq<nat>, inCache: set<nat>, handles: multiset<nat>, id: nat)
    requires Listed(lru, inUse, inCache, handles) && NoDuplicates(lru) && NoDuplicates(inUse)
    ensures Listed(Minus(lru, id), Minus(inUse, id), inCache - {id}, handles)
  {
    MinusMembers(lru, id);
    MinusMembers(inUse, id);
    var lru', inUse', inCache' := Minus(lru, id), Minus(inUse, id), inCache - {id};
    forall x ensures PlaceOk(lru', inUse', inCache', handles, x) {
      assert PlaceOk(lru, inUse, inCache, handles, x);
    }
  }

  lemma ListedHeld(lru: seq<nat>, inUse: seq<nat>, inCache: set<nat>, handles: multiset<nat>, id: nat)
    requires Listed(lru, inUse, inCache, handles) && NoDuplicates(lru) && NoDuplicates(inUse) && id in inCache
    ensures Listed(Minus(lru, id), Minus(inUse, id) + [id], inCache, handles + multiset{id})
  {
    MinusMembers(lru, id);
    MinusMembers(inUse, id);
    var lru', inUse', handles' := Minus(lru, id), Minus(inUse, id) + [id], handles + multiset{id};
    forall x ensures PlaceOk(lru', inUse', inCache, handles', x) {
      assert PlaceOk(lru, inUse, inCache, handles, x);
    }
  }

  lemma ListedFree(lru: seq<nat>, inUse: seq<nat>, inCache: set<nat>, handles: multiset<nat>, id: nat)
    requires Listed(lru, inUse, inCache, handles) && NoDuplicates(lru) && NoDuplicates(inUse) && id in inCache
    requires handles[id] == 1
    ensures id !in lru && id in inUse && Minus(lru, id) == lru
    ensures Listed(lru + [id], Minus(inUse, id), inCache, handles - multiset{id})
  {
    MinusMembers(inUse, id);
    assert PlaceOk(lru, inUse, inCache, handles, id);
    var lru', inUse', handles' := lru + [id], Minus(inUse, id), handles - multiset{id};
    forall x ensures PlaceOk(lru', inUse', inCache, handles', x) {
      assert PlaceOk(lru, inUse, inCache, handles, x);
    }
  }

  /** One handle fewer where others remain, or the entry is not cached. */
  lemma ListedStill(lru: seq<nat>, inUse: seq<nat>, inCache: set<nat>, handles: multiset<nat>, id: nat)
    requires Listed(lru, inUse, inCache, handles) && id in handles && (id in inCache ==> handles[id] > 1)
    ensures Listed(lru, inUse, inCache, handles - multiset{id})
  {
    var handles' := handles - multiset{id};
    forall x ensures PlaceOk(lru, inUse, inCache, handles', x) {
      assert PlaceOk(lru, inUse, inCache, handles, x);
    }
  }

  lemma ListedNew(lru: seq<nat>, inUse: seq<nat>, inCache: set<nat>, handles: multiset<nat>, id: nat)
    requires Listed(lru, inUse, inCache, handles) && id !in inCache && handles[id] == 0
    ensures id !in lru && id !in inUse && Listed(lru, inUse + [id], inCache + {id}, handles + multiset{id})
  {
    assert PlaceOk(lru, inUse, inCache, handles, id);
    var inUse', inCache', handles' := inUse + [id], inCache + {id}, handles + multiset{id};
    forall x ensures PlaceOk(lru, inUse', inCache', handles', x) {
      assert PlaceOk(lru, inUse, inCache, handles, x);
    }
  }
}
