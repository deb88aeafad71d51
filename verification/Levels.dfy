/** Files, levels, versions, and the invariants that hold between them.

    A version says which files the database has, and at which of seven levels
    each one is.  Level 0 holds overlapping files, told apart by number;
    every deeper level holds files with disjoint internal-key ranges, sorted.
    No single function of the engine checks that a user key's versions get
    older with depth, and every lookup depends on it. */
module Levels {
  import opened Keys
  import opened Entries

  const NUM_LEVELS: nat := 7

  /** FileMetaData, together with the entries its table holds. */
  datatype File = File(number: nat, size: nat, smallest: InternalKey, largest: InternalKey, entries: seq<Entry>)

  type Version = seq<seq<File>>

  /** File numbers are 64-bit, and the lookup of level 0 starts above them all. */
  const ABOVE_ALL_FILES: nat := 0xffff_ffff_ffff_ffff

  ghost predicate FileOk(f: File) {
    && f.number < ABOVE_ALL_FILES
    && |f.entries| > 0
    && Sorted(f.entries)
    && f.smallest == f.entries[0].key
    && f.largest == f.entries[|f.entries| - 1].key
  }

  /** Every version of a user key in f is newer than every one in g. */
  ghost predicate NewerThan(f: File, g: File) {
    forall e, d :: e in f.entries && d in g.entries && e.key.user == d.key.user ==> e.key.sequence > d.key.sequence
  }

  ghost predicate DisjointSorted(files: seq<File>) {
    forall i, j :: 0 <= i < j < |files| ==> Less(files[i].largest, files[j].smallest)
  }

  ghost predicate FilesOk(v: Version) {
    && |v| == NUM_LEVELS
    && (forall l, f {:trigger f in v[l]} :: 0 <= l < NUM_LEVELS && f in v[l] ==> FileOk(f))
    && (forall l, m, f, g {:trigger f in v[l], g in v[m]} ::
          0 <= l < NUM_LEVELS && 0 <= m < NUM_LEVELS && f in v[l] && g in v[m] && f.number == g.number
          ==> l == m && f == g)
  }

  ghost predicate Recency(v: Version)
    requires |v| == NUM_LEVELS
  {
    && (forall l, m, f, g {:trigger f in v[l], g in v[m]} ::
          0 <= l < m < NUM_LEVELS && f in v[l] && g in v[m] ==> NewerThan(f, g))
    && (forall f, g {:trigger NewerThan(f, g)} ::
          f in v[0] && g in v[0] && f.number > g.number ==> NewerThan(f, g))
  }

  ghost function Store(v: Version): set<Entry> {
    set l, f, e | 0 <= l < |v| && f in v[l] && e in f.entries :: e
  }

  /** The invariant every installed version satisfies. */
  ghost predicate LevelsOk(v: Version) {
    && FilesOk(v)
    && (forall l :: 1 <= l < NUM_LEVELS ==> DisjointSorted(v[l]))
    && Recency(v)
    && Distinct(Store(v))
  }

  lemma EntryInBounds(f: File, e: Entry)
    requires FileOk(f) && e in f.entries
    ensures AtMost(f.smallest, e.key) && AtMost(e.key, f.largest)
  {
    var i :| 0 <= i < |f.entries| && f.entries[i] == e;
    assert i > 0 ==> Less(f.entries[0].key, f.entries[i].key);
    assert i < |f.entries| - 1 ==> Less(f.entries[i].key, f.entries[|f.entries| - 1].key);
  }

  lemma StoreHas(v: Version, level: nat, f: File, e: Entry)
    requires level < |v| && f in v[level] && e in f.entries
    ensures e in Store(v)
  {
  }

  lemma BoundsInOrder(f: File)
    requires FileOk(f)
    ensures AtMost(f.smallest, f.largest)
    ensures Rank(f.smallest.user) <= Rank(f.largest.user)
  {
    EntryInBounds(f, f.entries[0]);
  }
}
