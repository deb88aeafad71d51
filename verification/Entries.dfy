/** Entries, and what a read at a snapshot should return.

    This is the whole specification of the store: a set of entries, where a
    read of a user key at a snapshot takes the newest entry of that key at or
    below the snapshot.  Everything the engine does with levels, files,
    compactions and logs is measured against it. */
module Entries {
  import opened Keys

  type Bytes = seq<Byte>

  datatype Option<+T> = None | Some(value: T)

  datatype Entry = Entry(key: InternalKey, value: Bytes)

  ghost predicate Sorted(entries: seq<Entry>) {
    forall i, j :: 0 <= i < j < |entries| ==> Less(entries[i].key, entries[j].key)
  }

  ghost function SetOf(entries: seq<Entry>): set<Entry> {
    set e | e in entries
  }

  /** Index of the first entry at or after `key`: what a table lookup delivers. */
  function FirstAtOrAfter(entries: seq<Entry>, key: InternalKey): (i: nat)
    ensures i <= |entries|
    ensures forall j :: 0 <= j < i ==> Less(entries[j].key, key)
    ensures i < |entries| ==> AtMost(key, entries[i].key)
  {
    if entries == [] || CompareInternal(entries[0].key, key) >= 0 then 0
    else 1 + FirstAtOrAfter(entries[1..], key)
  }

  // ------------------------------------------------------------------- reads

  ghost predicate Visible(e: Entry, user: UserKey, snapshot: nat) {
    e.key.user == user && e.key.sequence <= snapshot
  }

  ghost predicate IsNewest(store: set<Entry>, user: UserKey, snapshot: nat, e: Entry) {
    && e in store
    && Visible(e, user, snapshot)
    && forall f :: f in store && Visible(f, user, snapshot) ==> f.key.sequence <= e.key.sequence
  }

  ghost function Newest(store: set<Entry>, user: UserKey, snapshot: nat): Option<Entry> {
    if e :| IsNewest(store, user, snapshot, e) then Some(e) else None
  }

  /** No two entries of a user key share a sequence number. */
  ghost predicate Distinct(store: set<Entry>) {
    forall e, f :: e in store && f in store && e.key.user == f.key.user && e.key.sequence == f.key.sequence ==> e == f
  }

  /** What a lookup reports. */
  datatype Answer = Found(value: Bytes) | Deleted | Absent

  ghost function Read(store: set<Entry>, user: UserKey, snapshot: nat): Answer {
    match Newest(store, user, snapshot)
    case None => Absent
    case Some(e) => if e.key.kind.Value? then Found(e.value) else Deleted
  }

  /** What the caller of a read can tell: a value, or nothing. */
  ghost function View(store: set<Entry>, user: UserKey, snapshot: nat): Option<Bytes> {
    match Read(store, user, snapshot)
    case Found(v) => Some(v)
    case _ => None
  }

  lemma {:induction false} NewestExists(store: set<Entry>, user: UserKey, snapshot: nat, e: Entry)
    requires e in store && Visible(e, user, snapshot)
    ensures exists n :: IsNewest(store, user, snapshot, n)
    decreases snapshot - e.key.sequence
  {
    if !IsNewest(store, user, snapshot, e) {
      var f :| f in store && Visible(f, user, snapshot) && f.key.sequence > e.key.sequence;
      NewestExists(store, user, snapshot, f);
    }
  }

  lemma NewestIs(store: set<Entry>, user: UserKey, snapshot: nat, e: Entry)
    requires Distinct(store)
    requires IsNewest(store, user, snapshot, e)
    ensures Newest(store, user, snapshot) == Some(e)
  {
    var n := Newest(store, user, snapshot).value;
    assert IsNewest(store, user, snapshot, n);
    assert n.key.sequence == e.key.sequence;
  }

  lemma NewestIsNone(store: set<Entry>, user: UserKey, snapshot: nat)
    ensures Newest(store, user, snapshot) == None <==> forall e :: e in store ==> !Visible(e, user, snapshot)
  {
    if e :| e in store && Visible(e, user, snapshot) {
      NewestExists(store, user, snapshot, e);
    }
  }

  /** Adding entries that are all newer than the store commutes with adding
      them to any other store that reads the same. */
  lemma ViewOfNewer(a: set<Entry>, b: set<Entry>, newer: set<Entry>, user: UserKey, snapshot: nat)
    requires Distinct(a + newer) && Distinct(b + newer)
    requires forall e, f :: e in a + b && f in newer && e.key.user == f.key.user ==> e.key.sequence < f.key.sequence
    requires View(a, user, snapshot) == View(b, user, snapshot)
    ensures View(a + newer, user, snapshot) == View(b + newer, user, snapshot)
  {
    NewestIsNone(newer, user, snapshot);
    if f :| IsNewest(newer, user, snapshot, f) {
      assert IsNewest(a + newer, user, snapshot, f) && IsNewest(b + newer, user, snapshot, f);
      NewestIs(a + newer, user, snapshot, f);
      NewestIs(b + newer, user, snapshot, f);
    } else {
      assert Newest(newer, user, snapshot) == None;
      ViewOfInvisible(a, newer, user, snapshot);
      ViewOfInvisible(b, newer, user, snapshot);
    }
  }

  lemma ViewOfInvisible(a: set<Entry>, hidden: set<Entry>, user: UserKey, snapshot: nat)
    requires Distinct(a + hidden)
    requires forall e :: e in hidden ==> !Visible(e, user, snapshot)
    ensures View(a + hidden, user, snapshot) == View(a, user, snapshot)
  {
    NewestIsNone(a, user, snapshot);
    NewestIsNone(a + hidden, user, snapshot);
    if n :| IsNewest(a, user, snapshot, n) {
      NewestIs(a, user, snapshot, n);
      assert IsNewest(a + hidden, user, snapshot, n);
      NewestIs(a + hidden, user, snapshot, n);
    }
  }
}
