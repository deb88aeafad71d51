/** The shard's index: the hash of a key to a chain of entries, told apart by
    their bytes. */
module LruTable {
  import opened Keys
  import opened Entries
  import opened LruLinks

  /** What an entry was inserted with; the value is the caller's. */
  datatype Info = Info(key: UserKey, value: nat, charge: nat)

  type Hash64 = UserKey -> nat
  type Buckets = map<nat, seq<nat>>

  /** A chain holds members of its own hash, each once. */
  ghost predicate ChainOk(h: nat, chain: seq<nat>, hash: Hash64, info: map<nat, Info>, members: set<nat>) {
    && chain != [] && NoDuplicates(chain)
    && forall id :: id in chain ==> id in members && id in info && hash(info[id].key) == h
  }

  ghost predicate Chained(b: Buckets, hash: Hash64, info: map<nat, Info>, id: nat) {
    id in info && hash(info[id].key) in b && id in b[hash(info[id].key)]
  }

  /** The members are in their chains and nothing else is; no two share a key. */
  ghost predicate TableOk(b: Buckets, hash: Hash64, info: map<nat, Info>, members: set<nat>) {
    && (forall h :: h in b ==> ChainOk(h, b[h], hash, info, members))
    && (forall id :: id in members ==> Chained(b, hash, info, id))
    && (forall x, y :: x in members && y in members && info[x].key == info[y].key ==> x == y)
  }

  method Find(b: Buckets, hash: Hash64, info: map<nat, Info>, key: UserKey, ghost members: set<nat>)
    returns (r: Option<nat>)
    requires TableOk(b, hash, info, members)
    ensures r.Some? ==> r.value in members && r.value in info && info[r.value].key == key
    ensures r.None? ==> forall id :: id in members ==> info[id].key != key
  {
    var h := hash(key);
    if h !in b {
      return None;
    }
    assert ChainOk(h, b[h], hash, info, members);
    for i := 0 to |b[h]|
      invariant forall j :: 0 <= j < i ==> info[b[h][j]].key != key
    {
      assert b[h][i] in b[h];
      if info[b[h][i]].key == key {
        return Some(b[h][i]);
      }
    }
    r := None;
  }

  /** The new entry takes the place of the one with its key, or the front. */
  method Insert(b: Buckets, hash: Hash64, info: map<nat, Info>, id: nat, ghost members: set<nat>)
    returns (b': Buckets, replaced: Option<nat>)
    requires TableOk(b, hash, info, members) && id in info && id !in members
    ensures replaced.Some? ==> replaced.value in members && info[replaced.value].key == info[id].key
    ensures replaced.None? ==> forall m :: m in members ==> info[m].key != info[id].key
    ensures TableOk(b', hash, info, (if replaced.Some? then members - {replaced.value} else members) + {id})
  {
    var h := hash(info[id].key);
    var chain := if h in b then b[h] else [];
    assert h in b ==> ChainOk(h, b[h], hash, info, members);
    for i := 0 to |chain|
      invariant forall j :: 0 <= j < i ==> info[chain[j]].key != info[id].key
    {
      assert chain[i] in chain;
      if info[chain[i]].key == info[id].key {
        ReplacedOk(b, hash, info, members, h, i, id);
        return b[h := chain[i := id]], Some(chain[i]);
      }
    }
    FrontOk(b, hash, info, members, id);
    return b[h := [id] + chain], None;
  }

  lemma ReplacedOk(b: Buckets, hash: Hash64, info: map<nat, Info>, members: set<nat>, h: nat, i: nat, id: nat)
    requires TableOk(b, hash, info, members) && id in info && id !in members && h in b && h == hash(info[id].key)
    requires i < |b[h]| && b[h][i] in info && info[b[h][i]].key == info[id].key
    ensures var chain: seq<nat> := b[h][i := id];
            TableOk(b[h := chain], hash, info, members - {b[h][i]} + {id})
  {
    var chain: seq<nat> := b[h][i := id];
    var old', m, c := b[h][i], members - {b[h][i]} + {id}, b[h := chain];
    assert ChainOk(h, b[h], hash, info, members);
    forall g | g in c ensures ChainOk(g, c[g], hash, info, m) {
      assert g in b && ChainOk(g, b[g], hash, info, members);
    }
    forall x | x in m ensures Chained(c, hash, info, x) {
      if x == id {
        assert c[h][i] == id;
      } else {
        assert Chained(b, hash, info, x);
        var g := hash(info[x].key);
        var k :| 0 <= k < |b[g]| && b[g][k] == x;
        assert c[g][k] == x;
      }
    }
    assert old' in members;
  }

  lemma FrontOk(b: Buckets, hash: Hash64, info: map<nat, Info>, members: set<nat>, id: nat)
    requires TableOk(b, hash, info, members) && id in info && id !in members
    requires hash(info[id].key) in b ==> forall x :: x in b[hash(info[id].key)] ==>
               x in info && info[x].key != info[id].key
    ensures forall m :: m in members ==> info[m].key != info[id].key
    ensures var h := hash(info[id].key);
            TableOk(b[h := [id] + if h in b then b[h] else []], hash, info, members + {id})
  {
    var h := hash(info[id].key);
    var c, m := b[h := [id] + if h in b then b[h] else []], members + {id};
    forall x | x in members ensures info[x].key != info[id].key {
      assert Chained(b, hash, info, x);
    }
    forall g | g in c ensures ChainOk(g, c[g], hash, info, m) {
      assert g in b ==> ChainOk(g, b[g], hash, info, members);
    }
    forall x | x in m ensures Chained(c, hash, info, x) {
      if x == id {
        assert c[h][0] == id;
      } else {
        assert Chained(b, hash, info, x);
      }
    }
  }

  method Remove(b: Buckets, hash: Hash64, info: map<nat, Info>, id: nat, ghost members: set<nat>) returns (b': Buckets)
    requires TableOk(b, hash, info, members) && id in members
    ensures TableOk(b', hash, info, members - {id})
  {
    assert Chained(b, hash, info, id);
    var h := hash(info[id].key);
    var i := 0;
    while b[h][i] != id
      invariant 0 <= i < |b[h]| && forall j :: 0 <= j < i ==> b[h][j] != id
      decreases |b[h]| - i
    {
      i := i + 1;
    }
    RemovedOk(b, hash, info, members, h, i);
    var rest := b[h][..i] + b[h][i + 1..];
    b' := if rest == [] then b - {h} else b[h := rest];
  }

  lemma RemovedOk(b: Buckets, hash: Hash64, info: map<nat, Info>, members: set<nat>, h: nat, i: nat)
    requires TableOk(b, hash, info, members) && h in b && i < |b[h]|
    ensures var rest := Without(b[h], i);
            TableOk(if rest == [] then b - {h} else b[h := rest], hash, info, members - {b[h][i]})
  {
    var rest, m, id := Without(b[h], i), members - {b[h][i]}, b[h][i];
    var c := if rest == [] then b - {h} else b[h := rest];
    assert ChainOk(h, b[h], hash, info, members);
    WithoutMembers(b[h], i);
    forall g | g in c ensures ChainOk(g, c[g], hash, info, m) {
      assert ChainOk(g, b[g], hash, info, members);
      assert id in b[h];
    }
    forall x | x in m ensures Chained(c, hash, info, x) {
      assert Chained(b, hash, info, x);
      assert hash(info[x].key) == h ==> x in rest;
    }
  }
}
