/** The point lookup, Version::get: level 0 newest first, then one
    binary-searched file per level, stopping at the first answer.  It is proved
    to return the newest entry at or below the snapshot over every file of the
    version, although it looks at a handful of them. */
module VersionGet {
  import opened Keys
  import opened Entries
  import opened Levels

  // ------------------------------------------------------- one table, one key

  /** The lambda `search` with its callback save_value: the first entry at or
      after the lookup key answers only if it belongs to the user key. */
  function SearchFile(f: File, user: UserKey, snapshot: nat): Answer {
    var i := FirstAtOrAfter(f.entries, LookupKey(user, snapshot));
    if i == |f.entries| || f.entries[i].key.user != user then Absent
    else if f.entries[i].key.kind.Value? then Found(f.entries[i].value)
    else Deleted
  }

  ghost predicate Barren(f: File, user: UserKey, snapshot: nat) {
    forall e :: e in f.entries ==> !Visible(e, user, snapshot)
  }

  /** The entry SearchFile answers with is the newest visible one of the file. */
  lemma SearchFileFinds(f: File, user: UserKey, snapshot: nat) returns (e: Entry)
    requires FileOk(f)
    requires SearchFile(f, user, snapshot) != Absent
    ensures IsNewest(SetOf(f.entries), user, snapshot, e)
    ensures SearchFile(f, user, snapshot) == if e.key.kind.Value? then Found(e.value) else Deleted
  {
    var i := FirstAtOrAfter(f.entries, LookupKey(user, snapshot));
    e := f.entries[i];
    LookupKeySplits(e.key, user, snapshot);
    forall d | d in f.entries && Visible(d, user, snapshot) ensures d.key.sequence <= e.key.sequence {
      var j :| 0 <= j < |f.entries| && f.entries[j] == d;
      LookupKeySplits(d.key, user, snapshot);
    }
  }

  lemma SearchFileMisses(f: File, user: UserKey, snapshot: nat)
    requires FileOk(f)
    requires SearchFile(f, user, snapshot) == Absent
    ensures Barren(f, user, snapshot)
    ensures AtMost(LookupKey(user, snapshot), f.largest) ==> Rank(user) < Rank(f.largest.user)
  {
    var i := FirstAtOrAfter(f.entries, LookupKey(user, snapshot));
    RankInjective();
    if i < |f.entries| {
      EntryInBounds(f, f.entries[i]);
    }
    forall e | e in f.entries ensures !Visible(e, user, snapshot) {
      var j :| 0 <= j < |f.entries| && f.entries[j] == e;
      LookupKeySplits(e.key, user, snapshot);
    }
  }

  lemma OutsideIsBarren(f: File, user: UserKey, snapshot: nat)
    requires FileOk(f)
    requires Rank(user) < Rank(f.smallest.user) || Less(f.largest, LookupKey(user, snapshot))
    ensures Barren(f, user, snapshot)
  {
    forall e | e in f.entries ensures !Visible(e, user, snapshot) {
      EntryInBounds(f, e);
      LookupKeySplits(e.key, user, snapshot);
    }
  }

  // --------------------------------------------------------- finding the file

  /** find_file: the first file whose largest key is at or after `key`, by
      binary search. */
  method FindFile(files: seq<File>, key: InternalKey) returns (right: nat)
    requires forall f :: f in files ==> FileOk(f)
    requires DisjointSorted(files)
    ensures right <= |files|
    ensures forall i :: 0 <= i < right ==> Less(files[i].largest, key)
    ensures forall i :: right <= i < |files| ==> AtMost(key, files[i].largest)
  {
    var left := 0;
    right := |files|;
    while left < right
      invariant 0 <= left <= right <= |files|
      invariant forall i :: 0 <= i < left ==> Less(files[i].largest, key)
      invariant forall i :: right <= i < |files| ==> AtMost(key, files[i].largest)
    {
      var mid := (left + right) / 2;
      forall i | 0 <= i < |files| && i != mid
        ensures i < mid ==> Less(files[i].largest, files[mid].largest)
        ensures mid < i ==> Less(files[mid].largest, files[i].largest)
      {
        BoundsInOrder(files[i]);
        BoundsInOrder(files[mid]);
      }
      if CompareInternal(files[mid].largest, key) < 0 {
        left := mid + 1;
      } else {
        right := mid;
      }
    }
  }

  predicate Covers(f: File, user: UserKey) {
    Compare(user, f.smallest.user) >= 0 && Compare(user, f.largest.user) <= 0
  }

  /** One pass over level 0: the newest covering file older than `newerThan`. */
  method NewestCovering(files: seq<File>, user: UserKey, newerThan: nat) returns (next: Option<File>)
    ensures next.Some? ==> next.value in files && next.value.number < newerThan && Covers(next.value, user)
    ensures forall f :: f in files && f.number < newerThan && Covers(f, user)
              ==> next.Some? && f.number <= next.value.number
  {
    next := None;
    for i := 0 to |files|
      invariant next.Some? ==> next.value in files && next.value.number < newerThan && Covers(next.value, user)
      invariant forall f :: f in files[..i] && f.number < newerThan && Covers(f, user)
                  ==> next.Some? && f.number <= next.value.number
    {
      var file := files[i];
      assert files[..i + 1] == files[..i] + [file];
      if file.number < newerThan && (next.None? || file.number > next.value.number) && Covers(file, user) {
        next := Some(file);
      }
    }
    assert files[..|files|] == files;
  }

  // ----------------------------------------------------------- the whole store

  /** An entry that is the newest visible one of its file answers the read when
      every file that could hold a newer one is barren. */
  lemma AnswerFromFile(v: Version, level: nat, f: File, user: UserKey, snapshot: nat, e: Entry)
    requires LevelsOk(v) && level < NUM_LEVELS && f in v[level]
    requires IsNewest(SetOf(f.entries), user, snapshot, e)
    requires forall l :: 0 <= l < level ==> AllBarren(v[l], user, snapshot)
    requires forall g :: g in v[level] && g != f ==> Barren(g, user, snapshot) || NewerThan(f, g)
    ensures Newest(Store(v), user, snapshot) == Some(e)
  {
    StoreHas(v, level, f, e);
    forall d | d in Store(v) && Visible(d, user, snapshot) ensures d.key.sequence <= e.key.sequence {
      var l, g :| 0 <= l < |v| && g in v[l] && d in g.entries;
      if l == level && g == f {
        assert d in SetOf(f.entries);
      } else {
        assert l < level ==> AllBarren(v[l], user, snapshot);
        assert l > level ==> NewerThan(f, g);
        NotNewer(f, g, user, snapshot, e, d);
      }
    }
    assert IsNewest(Store(v), user, snapshot, e);
    NewestIs(Store(v), user, snapshot, e);
  }

  lemma NotNewer(f: File, g: File, user: UserKey, snapshot: nat, e: Entry, d: Entry)
    requires e in f.entries && d in g.entries && Visible(e, user, snapshot) && Visible(d, user, snapshot)
    requires Barren(g, user, snapshot) || NewerThan(f, g)
    ensures d.key.sequence <= e.key.sequence
  {
  }

  /** One deeper level: the file the binary search lands on speaks for the
      whole level, even when the versions of the key are split between it and
      its neighbours. */
  lemma LevelAnswer(files: seq<File>, index: nat, user: UserKey, snapshot: nat)
    requires forall f :: f in files ==> FileOk(f)
    requires DisjointSorted(files)
    requires index <= |files|
    requires forall i :: 0 <= i < index ==> Less(files[i].largest, LookupKey(user, snapshot))
    requires forall i :: index <= i < |files| ==> AtMost(LookupKey(user, snapshot), files[i].largest)
    ensures forall i :: 0 <= i < index ==> Barren(files[i], user, snapshot)
    ensures index < |files| &&
            (Rank(user) < Rank(files[index].smallest.user) || SearchFile(files[index], user, snapshot) == Absent) ==>
            forall i :: index <= i < |files| ==> Barren(files[i], user, snapshot)
    ensures index < |files| ==> forall i :: index < i < |files| ==> SplitBehind(files[index], files[i])
  {
    forall i | 0 <= i < index ensures Barren(files[i], user, snapshot) {
      OutsideIsBarren(files[i], user, snapshot);
    }
    if index < |files| {
      BoundsInOrder(files[index]);
      forall i | index < i < |files| ensures SplitBehind(files[index], files[i]) {
      }
      if Rank(user) < Rank(files[index].smallest.user) {
        forall i | index <= i < |files| ensures Barren(files[i], user, snapshot) {
          OutsideIsBarren(files[i], user, snapshot);
        }
      }
      if SearchFile(files[index], user, snapshot) == Absent {
        SearchFileMisses(files[index], user, snapshot);
        forall i | index <= i < |files| ensures Barren(files[i], user, snapshot) {
          if i > index {
            OutsideIsBarren(files[i], user, snapshot);
          }
        }
      }
    }
  }

  ghost predicate SplitBehind(f: File, g: File) {
    Less(f.largest, g.smallest)
  }

  /** Files later in a sorted level hold only older versions of a shared key. */
  lemma SplitIsOlder(v: Version, level: nat, f: File, g: File)
    requires LevelsOk(v) && level < NUM_LEVELS && f in v[level] && g in v[level]
    requires SplitBehind(f, g)
    ensures NewerThan(f, g)
  {
    forall e, d | e in f.entries && d in g.entries && e.key.user == d.key.user
      ensures e.key.sequence > d.key.sequence
    {
      EntryInBounds(f, e);
      EntryInBounds(g, d);
      assert e in Store(v) && d in Store(v);
    }
  }

  ghost predicate AllBarren(files: seq<File>, user: UserKey, snapshot: nat) {
    forall f :: f in files ==> Barren(f, user, snapshot)
  }

  lemma UncoveredIsBarren(f: File, user: UserKey, snapshot: nat)
    requires FileOk(f) && !Covers(f, user)
    ensures Barren(f, user, snapshot)
  {
    OutsideIsBarren(f, user, snapshot);
  }

  /** Level 0: overlapping files, searched newest first. */
  method GetLevelZero(v: Version, user: UserKey, snapshot: nat) returns (r: Answer)
    requires LevelsOk(v)
    ensures r != Absent ==> r == Read(Store(v), user, snapshot)
    ensures r == Absent ==> AllBarren(v[0], user, snapshot)
  {
    var newerThan := ABOVE_ALL_FILES;
    while true
      invariant forall f :: f in v[0] && f.number >= newerThan ==> Barren(f, user, snapshot)
      decreases newerThan
    {
      var next := NewestCovering(v[0], user, newerThan);
      forall f | f in v[0] && (next.None? || next.value.number < f.number) ensures Barren(f, user, snapshot) {
        if f.number < newerThan {
          UncoveredIsBarren(f, user, snapshot);
        }
      }
      if next.None? {
        return Absent;
      }
      var file := next.value;
      r := SearchFile(file, user, snapshot);
      if r != Absent {
        ghost var e := SearchFileFinds(file, user, snapshot);
        AnswerFromFile(v, 0, file, user, snapshot, e);
        return;
      }
      SearchFileMisses(file, user, snapshot);
      newerThan := file.number;
    }
  }

  /** A deeper level: one file, found by binary search. */
  method GetFromLevel(v: Version, level: nat, user: UserKey, snapshot: nat) returns (r: Answer)
    requires LevelsOk(v) && 1 <= level < NUM_LEVELS
    requires forall l :: 0 <= l < level ==> AllBarren(v[l], user, snapshot)
    ensures r != Absent ==> r == Read(Store(v), user, snapshot)
    ensures r == Absent ==> AllBarren(v[level], user, snapshot)
  {
    var index := FindFile(v[level], LookupKey(user, snapshot));
    LevelAnswer(v[level], index, user, snapshot);
    if index == |v[level]| || Compare(user, v[level][index].smallest.user) < 0 {
      return Absent;
    }
    var file := v[level][index];
    r := SearchFile(file, user, snapshot);
    if r != Absent {
      ghost var e := SearchFileFinds(file, user, snapshot);
      OthersAreBarrenOrOlder(v, level, index, user, snapshot);
      AnswerFromFile(v, level, file, user, snapshot, e);
    }
  }

  lemma OthersAreBarrenOrOlder(v: Version, level: nat, index: nat, user: UserKey, snapshot: nat)
    requires LevelsOk(v) && 1 <= level < NUM_LEVELS && index < |v[level]|
    requires forall i :: 0 <= i < index ==> Barren(v[level][i], user, snapshot)
    requires forall i :: index < i < |v[level]| ==> SplitBehind(v[level][index], v[level][i])
    ensures forall g :: g in v[level] && g != v[level][index] ==>
              Barren(g, user, snapshot) || NewerThan(v[level][index], g)
  {
    forall g | g in v[level] && g != v[level][index]
      ensures Barren(g, user, snapshot) || NewerThan(v[level][index], g) {
      var i :| 0 <= i < |v[level]| && v[level][i] == g;
      if i > index {
        SplitIsOlder(v, level, v[level][index], g);
      }
    }
  }

  /** Version::get. */
  method Get(v: Version, user: UserKey, snapshot: nat) returns (r: Answer)
    requires LevelsOk(v)
    ensures r == Read(Store(v), user, snapshot)
  {
    r := GetLevelZero(v, user, snapshot);
    if r != Absent {
      return;
    }
    for level := 1 to NUM_LEVELS
      invariant forall l :: 0 <= l < level ==> AllBarren(v[l], user, snapshot)
    {
      r := GetFromLevel(v, level, user, snapshot);
      if r != Absent {
        return;
      }
    }
    NewestIsNone(Store(v), user, snapshot);
    r := Absent;
  }
}
