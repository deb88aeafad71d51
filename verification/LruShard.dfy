/** One shard of the block cache: a bounded table of reference-counted entries
    with least-recently-released eviction. */
module LruShard {
  import opened Keys
  import opened Entries
  import opened LruLinks
  import opened LruTable
  import opened LruBooks

  class Shard {
    const capacity: nat
    const hash: Hash64
    var buckets: Buckets
    var links: Links
    var usage: nat
    /** The entries not yet freed: what they hold, their references, in_cache. */
    var info: map<nat, Info>
    var refs: map<nat, nat>
    var inCache: set<nat>
    var next: nat
    /** The two lists as they are threaded; the handles users hold; the entries
        the deleter was called for; and when each entry was last let go. */
    ghost var lru: seq<nat>
    ghost var inUse: seq<nat>
    ghost var handles: multiset<nat>
    ghost var freed: multiset<nat>
    ghost var releasedAt: map<nat, nat>
    ghost var clock: nat

    ghost predicate ListsOk()
      reads `links, `lru, `inUse, `inCache, `handles, `releasedAt, `clock
    {
      Threads(links, lru, inUse) && Listed(lru, inUse, inCache, handles) && Aged(lru, releasedAt, clock)
    }

    ghost predicate CountsOk()
      reads `info, `refs, `next, `handles, `inCache, `freed
    {
      info.Keys == refs.Keys && FIRST <= next && Counted(refs, handles, inCache) && FreedOnce(freed, refs, next)
    }

    ghost predicate Books()
      reads this
    {
      ListsOk() && CountsOk() && inCache <= info.Keys && usage == Sum(info, inCache)
    }

    /** Over capacity only when every cached entry is in use. */
    ghost predicate Valid()
      reads this
    {
      Books() && TableOk(buckets, hash, info, inCache) && (usage <= capacity || lru == [])
    }

    constructor (capacity: nat, hash: Hash64)
      ensures Valid() && this.capacity == capacity && inCache == {} && handles == multiset{} && freed == multiset{}
    {
      this.capacity, this.hash := capacity, hash;
      buckets, usage, info, refs, inCache, next := map[], 0, map[], map[], {}, FIRST;
      links := Links(map[LRU := LRU, IN_USE := IN_USE], map[LRU := LRU, IN_USE := IN_USE]);
      lru, inUse, handles, freed, releasedAt, clock := [], [], multiset{}, multiset{}, map[], 0;
    }

    /** LRUList::remove: from whichever list the entry is on. */
    method Unlink(id: nat)
      requires Threads(links, lru, inUse) && (id in lru || id in inUse)
      modifies this`links, this`lru, this`inUse
      ensures Threads(links, lru, inUse) && lru == Minus(old(lru), id) && inUse == Minus(old(inUse), id)
    {
      if id in lru {
        ghost var k :| 0 <= k < |lru| && lru[k] == id;
        UnlinkFromLru(links, lru, inUse, k);
        MinusIs(lru, k);
      } else {
        ghost var k :| 0 <= k < |inUse| && inUse[k] == id;
        UnlinkFromInUse(links, lru, inUse, k);
        MinusIs(inUse, k);
      }
      links := Removed(links, id);
      lru, inUse := Minus(lru, id), Minus(inUse, id);
    }

    method Unref(id: nat)
      requires id in refs && refs[id] > 0 && info.Keys == refs.Keys
      modifies this`refs, this`info, this`freed
      ensures refs == Dropped(old(refs), id) && info.Keys == refs.Keys
      ensures info == if old(refs[id]) == 1 then old(info) - {id} else old(info)
      ensures freed == if old(refs[id]) == 1 then old(freed) + multiset{id} else old(freed)
    {
      if refs[id] == 1 {
        freed := freed + multiset{id};
        refs, info := refs - {id}, info - {id};
      } else {
        refs := refs[id := refs[id] - 1];
      }
    }

    /** Drops a reference no longer accounted for; frees on the last. */
    method DropRef(id: nat)
      requires info.Keys == refs.Keys && FIRST <= next && Owed(refs, handles, inCache, id)
      requires FreedOnce(freed, refs, next)
      requires TableOk(buckets, hash, info, inCache) && usage == Sum(info, inCache)
      modifies this`refs, this`info, this`freed
      ensures CountsOk()
      ensures TableOk(buckets, hash, info, inCache) && usage == Sum(info, inCache)
      ensures Kept(old(info))
    {
      DroppedCounts(refs, handles, inCache, id);
      DroppedFrees(freed, refs, next, id);
      if refs[id] == 1 {
        ForgetOk(buckets, hash, info, inCache, id);
      }
      Unref(id);
      SumSame(old(info), info, inCache);
    }

    /** Off its list and out of the count of charges. */
    method LeaveLists(id: nat)
      requires ListsOk() && id in inCache && inCache <= info.Keys && usage == Sum(info, inCache)
      modifies this`links, this`lru, this`inUse, this`inCache, this`usage
      ensures ListsOk() && inCache == old(inCache) - {id} && usage == Sum(info, inCache) == old(usage) - info[id].charge
      ensures lru == Minus(old(lru), id)
    {
      assert PlaceOk(lru, inUse, inCache, handles, id);
      Unlink(id);
      ListedMinus(old(lru), old(inUse), inCache, handles, id);
      AgedMinus(old(lru), releasedAt, clock, id);
      SumWithout(info, inCache, id);
      inCache := inCache - {id};
      usage := usage - info[id].charge;
    }

    /** Takes an entry out of the cache; it lives until its users let go. */
    method LeaveCache(id: nat)
      requires Books() && id in inCache && TableOk(buckets, hash, info, inCache - {id})
      modifies this`links, this`lru, this`inUse, this`inCache, this`usage, this`refs, this`info, this`freed
      ensures Books() && TableOk(buckets, hash, info, inCache) && inCache == old(inCache) - {id}
      ensures usage == old(usage) - old(info)[id].charge && lru == Minus(old(lru), id)
      ensures Kept(old(info))
    {
      OwedAfter(refs, handles, inCache, id);
      LeaveLists(id);
      DropRef(id);
    }

    method FinishErase(id: nat, inTable: bool)
      requires Books() && id in inCache
      requires TableOk(buckets, hash, info, if inTable then inCache else inCache - {id})
      modifies this`links, this`lru, this`inUse, this`inCache, this`usage, this`refs, this`info, this`freed,
          this`buckets
      ensures Books() && TableOk(buckets, hash, info, inCache) && inCache == old(inCache) - {id}
      ensures usage == old(usage) - old(info)[id].charge && lru == Minus(old(lru), id)
      ensures Kept(old(info))
    {
      if inTable {
        buckets := Remove(buckets, hash, info, id, inCache);
      }
      LeaveCache(id);
    }

    /** The first n of these are evicted, the last of them for want of room. */
    ghost predicate Evicted(lru0: seq<nat>, inCache0: set<nat>, info0: map<nat, Info>, n: nat)
      reads this
    {
      && n <= |lru0| && lru == lru0[n..] && inCache == inCache0 - Members(lru0[..n])
      && (n > 0 ==> lru0[n - 1] in info0 && usage + info0[lru0[n - 1]].charge > capacity)
      && Kept(info0)
    }

    /** What is not freed is as it was. */
    ghost predicate Kept(info0: map<nat, Info>)
      reads `info
    {
      forall x :: x in info ==> x in info0 && info[x] == info0[x]
    }

    /** Frees the entries let go longest ago, and no more of them than needed. */
    method EvictToCapacity(ghost info0: map<nat, Info>) returns (ghost n: nat)
      requires Books() && TableOk(buckets, hash, info, inCache) && Kept(info0)
      modifies this`links, this`lru, this`inUse, this`inCache, this`usage, this`refs, this`info, this`freed,
          this`buckets
      ensures Valid() && Evicted(old(lru), old(inCache), info0, n)
      ensures forall x :: x in old(inCache) && x in handles ==> x in inCache
    {
      n := 0;
      forall x | x in lru ensures x !in handles {
        assert PlaceOk(lru, inUse, inCache, handles, x);
      }
      Oldest(links, lru, inUse);
      while usage > capacity && links.next[LRU] != LRU
        invariant Books() && TableOk(buckets, hash, info, inCache)
        invariant LRU in links.next && links.next[LRU] == if lru == [] then LRU else lru[0]
        invariant Evicted(old(lru), old(inCache), info0, n)
        decreases |lru|
      {
        n := EvictOldest(old(lru), old(inCache), info0, n);
        Oldest(links, lru, inUse);
      }
    }

    method EvictOldest(ghost lru0: seq<nat>, ghost inCache0: set<nat>, ghost info0: map<nat, Info>, ghost m: nat)
      returns (ghost n: nat)
      requires Books() && TableOk(buckets, hash, info, inCache) && lru != [] && usage > capacity
      requires LRU in links.next && links.next[LRU] == lru[0] && Evicted(lru0, inCache0, info0, m)
      modifies this`links, this`lru, this`inUse, this`inCache, this`usage, this`refs, this`info, this`freed,
          this`buckets
      ensures Books() && TableOk(buckets, hash, info, inCache) && |lru| < |old(lru)|
      ensures n == m + 1 && Evicted(lru0, inCache0, info0, n)
    {
      n := m + 1;
      MinusIs(lru, 0);
      assert lru[0] in lru && PlaceOk(lru, inUse, inCache, handles, lru[0]);
      MembersNext(lru0, inCache0, m);
      FinishErase(links.next[LRU], true);
    }

    /** A hit is held, and off the evictable list, until it is released. */
    method Lookup(key: UserKey) returns (r: Option<nat>)
      requires Valid()
      modifies this`refs, this`links, this`lru, this`inUse, this`handles
      ensures Valid()
      ensures r.None? ==>
                (forall id :: id in inCache ==> info[id].key != key) && lru == old(lru) && handles == old(handles)
      ensures r.Some? ==> r.value in inCache && info[r.value].key == key &&
                          handles == old(handles) + multiset{r.value} && lru == Minus(old(lru), r.value)
    {
      r := Find(buckets, hash, info, key, inCache);
      if r.Some? {
        Take(r.value);
      }
    }

    method Take(id: nat)
      requires Valid() && id in inCache
      modifies this`refs, this`links, this`lru, this`inUse, this`handles
      ensures Valid() && handles == old(handles) + multiset{id} && lru == Minus(old(lru), id)
    {
      AddRef(id);
      Hold(id);
    }

    method AddRef(id: nat)
      requires CountsOk() && id in inCache
      modifies this`refs
      ensures FIRST <= id && refs.Keys == info.Keys && Counted(refs, handles + multiset{id}, inCache)
      ensures FreedOnce(freed, refs, next)
    {
      assert CountOk(refs, handles, inCache, id, 0);
      CountedHeld(refs, handles, inCache, id);
      FreedSame(freed, refs, refs[id := refs[id] + 1], next);
      assert FreedOk(freed, refs, next, id);
      refs := refs[id := refs[id] + 1];
    }

    method Hold(id: nat)
      requires ListsOk() && id in inCache && FIRST <= id
      modifies this`links, this`lru, this`inUse, this`handles
      ensures ListsOk() && handles == old(handles) + multiset{id} && lru == Minus(old(lru), id)
    {
      assert PlaceOk(lru, inUse, inCache, handles, id);
      ListedHeld(lru, inUse, inCache, handles, id);
      AgedMinus(lru, releasedAt, clock, id);
      MinusMembers(lru, id);
      MinusMembers(inUse, id);
      Unlink(id);
      AppendToInUse(links, lru, inUse, id);
      links := Appended(links, IN_USE, id);
      inUse := inUse + [id];
      handles := handles + multiset{id};
    }

    /** The last user lets go of a cached entry: evictable, the youngest. */
    method LetGo(id: nat)
      requires ListsOk() && id in inCache && FIRST <= id && handles[id] == 1
      modifies this`links, this`lru, this`inUse, this`handles, this`releasedAt, this`clock
      ensures ListsOk() && handles == old(handles) - multiset{id} && lru == old(lru) + [id]
    {
      ListedFree(lru, inUse, inCache, handles, id);
      AgedAppend(lru, releasedAt, clock, id);
      MinusMembers(inUse, id);
      Unlink(id);
      AppendToLru(links, lru, inUse, id);
      links := Appended(links, LRU, id);
      lru := lru + [id];
      releasedAt, clock := releasedAt[id := clock], clock + 1;
      handles := handles - multiset{id};
    }

    method GiveBack(id: nat)
      requires ListsOk() && id in handles && id in refs && FIRST <= id
      requires refs[id] == 2 && id in inCache <==> handles[id] == 1 && id in inCache
      modifies this`links, this`lru, this`inUse, this`handles, this`releasedAt, this`clock
      ensures ListsOk() && handles == old(handles) - multiset{id}
      ensures lru == if old(handles)[id] == 1 && id in inCache then old(lru) + [id] else old(lru)
    {
      if refs[id] == 2 && id in inCache {
        LetGo(id);
      } else {
        ListedStill(lru, inUse, inCache, handles, id);
        handles := handles - multiset{id};
      }
    }

    /** A cached entry whose last user lets go becomes the youngest evictable
        one; an entry no longer cached is freed with its last user. */
    method Release(id: nat) returns (ghost n: nat)
      requires Valid() && id in handles
      modifies this`links, this`lru, this`inUse, this`handles, this`releasedAt, this`clock, this`refs, this`info,
          this`freed,
               this`inCache, this`usage, this`buckets
      ensures Valid() && handles == old(handles) - multiset{id}
      ensures Evicted(if old(handles)[id] == 1 && id in old(inCache) then old(lru) + [id] else old(lru),
                      old(inCache), old(info), n)
    {
      Return(id);
      n := EvictToCapacity(old(info));
    }

    method Return(id: nat)
      requires Books() && TableOk(buckets, hash, info, inCache) && id in handles
      modifies this`links, this`lru, this`inUse, this`handles, this`releasedAt, this`clock, this`refs, this`info,
          this`freed
      ensures Books() && TableOk(buckets, hash, info, inCache) && Kept(old(info))
      ensures handles == old(handles) - multiset{id}
      ensures lru == if old(handles)[id] == 1 && id in inCache then old(lru) + [id] else old(lru)
    {
      OwedBack(refs, handles, inCache, id);
      assert FreedOk(freed, refs, next, id);
      GiveBack(id);
      DropRef(id);
    }

    /** A new entry, held by its inserter and on the in-use list. */
    method Enlist(id: nat)
      requires ListsOk() && FIRST <= id && id !in inCache && handles[id] == 0
      modifies this`links, this`inUse, this`inCache, this`handles
      ensures ListsOk() && inCache == old(inCache) + {id} && handles == old(handles) + multiset{id}
    {
      ListedNew(lru, inUse, inCache, handles, id);
      AppendToInUse(links, lru, inUse, id);
      links := Appended(links, IN_USE, id);
      inUse := inUse + [id];
      inCache := inCache + {id};
      handles := handles + multiset{id};
    }

    method Count() returns (id: nat)
      requires CountsOk()
      modifies this`refs, this`next
      ensures id == old(next) && id !in info && handles[id] == 0 && refs.Keys == info.Keys + {id}
      ensures FIRST <= id < next && Counted(refs, handles + multiset{id}, inCache + {id})
      ensures FreedOnce(freed, refs, next)
    {
      id := next;
      FreedNew(freed, refs, next);
      CountedNew(refs, handles, inCache, id);
      next := next + 1;
      refs := refs[id := 2];
    }

    method Describe(id: nat, i: Info)
      requires id !in info && inCache <= info.Keys && TableOk(buckets, hash, info, inCache)
      requires usage == Sum(info, inCache)
      modifies this`info, this`usage
      ensures info == old(info)[id := i] && TableOk(buckets, hash, info, inCache)
      ensures inCache + {id} <= info.Keys && usage == Sum(info, inCache + {id})
    {
      SumNew(info, inCache, id, i);
      LearnOk(buckets, hash, info, inCache, id, i);
      info := info[id := i];
      usage := usage + i.charge;
    }

    method Create(i: Info) returns (id: nat)
      requires Books() && TableOk(buckets, hash, info, inCache)
      modifies this`links, this`inUse, this`inCache, this`handles, this`refs, this`info, this`next, this`usage
      ensures Books() && TableOk(buckets, hash, info, old(inCache)) && id == old(next) && id !in old(info)
      ensures id !in old(inCache)
      ensures inCache == old(inCache) + {id} && handles == old(handles) + multiset{id} && info == old(info)[id := i]
    {
      id := Count();
      Describe(id, i);
      Enlist(id);
    }

    /** The new entry goes into the table, and the one it replaces out of the
        cache. */
    method Replace(id: nat) returns (replaced: Option<nat>)
      requires Books() && id in inCache && TableOk(buckets, hash, info, inCache - {id})
      modifies this`links, this`lru, this`inUse, this`inCache, this`usage, this`refs, this`info, this`freed,
          this`buckets
      ensures Books() && TableOk(buckets, hash, info, inCache) && Kept(old(info))
      ensures SameKey(old(info), old(inCache) - {id}, id, replaced)
      ensures inCache == Except(old(inCache), replaced) && lru == ExceptIn(old(lru), replaced)
    {
      ghost var others := inCache - {id};
      buckets, replaced := LruTable.Insert(buckets, hash, info, id, others);
      if replaced.Some? {
        assert others - {replaced.value} + {id} == inCache - {replaced.value};
        FinishErase(replaced.value, false);
      } else {
        assert others + {id} == inCache;
      }
    }

    /** The inserter holds the new entry; the entry it replaces leaves the
        cache, and then the oldest ones there is no room for. */
    method Insert(i: Info) returns (id: nat, ghost replaced: Option<nat>, ghost n: nat)
      requires Valid()
      modifies this`links, this`lru, this`inUse, this`inCache, this`handles, this`refs, this`info, this`next,
          this`usage,
               this`freed, this`buckets
      ensures Valid() && id == old(next) && handles == old(handles) + multiset{id} && id in inCache && info[id] == i
      ensures SameKey(old(info)[id := i], old(inCache), id, replaced)
      ensures Evicted(ExceptIn(old(lru), replaced), Except(old(inCache) + {id}, replaced), old(info)[id := i], n)
    {
      id, replaced := Place(i);
      n := EvictToCapacity(old(info)[id := i]);
      assert id in handles;
    }

    method Place(i: Info) returns (id: nat, replaced: Option<nat>)
      requires Books() && TableOk(buckets, hash, info, inCache)
      modifies this`links, this`lru, this`inUse, this`inCache, this`handles, this`refs, this`info, this`next,
          this`usage,
               this`freed, this`buckets
      ensures Books() && TableOk(buckets, hash, info, inCache) && Kept(old(info)[id := i])
      ensures id == old(next) && id in inCache && handles == old(handles) + multiset{id}
      ensures SameKey(old(info)[id := i], old(inCache), id, replaced)
      ensures inCache == Except(old(inCache) + {id}, replaced) && lru == ExceptIn(old(lru), replaced)
    {
      id := Create(i);
      assert inCache - {id} == old(inCache);
      replaced := Replace(id);
    }

    /** The entry of this key, if cached, is not any more. */
    method Erase(key: UserKey)
      requires Valid()
      modifies this`links, this`lru, this`inUse, this`inCache, this`usage, this`refs, this`info, this`freed,
          this`buckets
      ensures Valid() && Kept(old(info)) && inCache <= old(inCache)
      ensures forall id :: id in old(inCache) ==> (id in inCache <==> old(info)[id].key != key)
    {
      var found := Find(buckets, hash, info, key, inCache);
      if found.Some? {
        OneOfKey(buckets, hash, info, inCache, found.value);
        MinusMembers(lru, found.value);
        FinishErase(found.value, true);
      }
    }

    /** The destructor, once no handle is out: every entry there ever was has
        been freed, once. */
    method Destroy()
      requires Valid() && handles == multiset{}
      modifies this`inCache, this`refs, this`info, this`freed
      ensures forall id: nat :: freed[id] == if FIRST <= id < next then 1 else 0
    {
      while inCache != {}
        invariant CountsOk()
        decreases |inCache|
      {
        var id :| id in inCache;
        Discard(id);
      }
      forall id: nat ensures freed[id] == if FIRST <= id < next then 1 else 0 {
        assert CountOk(refs, handles, inCache, id, 0) && FreedOk(freed, refs, next, id);
      }
    }

    method Discard(id: nat)
      requires CountsOk() && id in inCache
      modifies this`inCache, this`refs, this`info, this`freed
      ensures CountsOk() && inCache == old(inCache) - {id}
    {
      OwedAfter(refs, handles, inCache, id);
      inCache := inCache - {id};
      DroppedCounts(refs, handles, inCache, id);
      DroppedFrees(freed, refs, next, id);
      Unref(id);
    }

    /** With nothing held, the cache is within its capacity. */
    lemma WithinCapacity()
      requires Valid() && handles == multiset{}
      ensures usage <= capacity
    {
      forall id | id in inCache ensures id in lru {
        assert PlaceOk(lru, inUse, inCache, handles, id);
      }
      assert lru == [] ==> inCache == {};
    }

    /** A handle's entry is never freed, cached or not, and is never up for
        eviction. */
    lemma HeldIsKept(id: nat)
      requires Valid() && id in handles
      ensures id in info && freed[id] == 0 && id !in lru && refs[id] >= handles[id]
    {
      assert CountOk(refs, handles, inCache, id, 0) && FreedOk(freed, refs, next, id) &&
          PlaceOk(lru, inUse, inCache, handles, id);
    }

    /** What is evicted first was let go before everything else evictable. */
    lemma OldestFirst(i: nat)
      requires Valid() && 0 < i < |lru|
      ensures LRU in links.next && links.next[LRU] == lru[0]
      ensures lru[0] in releasedAt && lru[i] in releasedAt && releasedAt[lru[0]] < releasedAt[lru[i]]
    {
      Oldest(links, lru, inUse);
      assert Earlier(lru, releasedAt, 0, i);
    }
  }

  /** No other member has its key. */
  lemma OneOfKey(b: Buckets, hash: Hash64, info: map<nat, Info>, members: set<nat>, id: nat)
    requires TableOk(b, hash, info, members) && id in members
    ensures forall x :: x in members && x != id ==> x in info && info[x].key != info[id].key
  {
    forall x | x in members && x != id ensures x in info && info[x].key != info[id].key {
      assert Chained(b, hash, info, x) && Chained(b, hash, info, id);
    }
  }

  /** The one member with the new entry's key, if there is one. */
  ghost predicate SameKey(info: map<nat, Info>, members: set<nat>, id: nat, replaced: Option<nat>) {
    && id in info && members <= info.Keys
    && match replaced
       case Some(x) => x in members && x != id && info[x].key == info[id].key
       case None => forall x :: x in members ==> info[x].key != info[id].key
  }

  ghost function Except(s: set<nat>, x: Option<nat>): set<nat> {
    if x.Some? then s - {x.value} else s
  }

  ghost function ExceptIn(s: seq<nat>, x: Option<nat>): seq<nat> {
    if x.Some? then Minus(s, x.value) else s
  }

  ghost function Members(s: seq<nat>): set<nat> {
    set x | x in s
  }

  lemma MembersNext(s: seq<nat>, from: set<nat>, m: nat)
    requires m < |s|
    ensures from - Members(s[..m]) - {s[m]} == from - Members(s[..m + 1]) && s[m..][1..] == s[m + 1..]
  {
    assert s[..m + 1] == s[..m] + [s[m]];
  }

}
