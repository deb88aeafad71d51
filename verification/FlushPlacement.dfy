/** Where a flushed memtable goes: pick_level_for_memtable_output, with the
    overlap test some_file_overlaps_range.  The chosen level and every level
    above it hold nothing that overlaps the new file, unless it is level 0. */
module FlushPlacement {
  import opened Keys
  import opened Entries
  import opened Levels
  import opened VersionGet
  import opened CompactionInputs

  const MAX_MEM_COMPACT_LEVEL: nat := 2

  ghost predicate UserDisjoint(f: File, g: File) {
    Rank(f.largest.user) < Rank(g.smallest.user) || Rank(g.largest.user) < Rank(f.smallest.user)
  }

  ghost predicate SequencesFit(v: Version) {
    forall e :: e in Store(v) ==> e.key.sequence <= MAX_SEQUENCE
  }

  /** A file with this range may be added at this level. */
  ghost predicate PlacementOk(v: Version, f: File, level: nat) {
    && level < NUM_LEVELS == |v|
    && (level > 0 ==> forall l :: 0 <= l <= level ==> Clear(v[l], f))
  }

  /** No file of the level overlaps f. */
  ghost predicate Clear(files: seq<File>, f: File) {
    forall g :: g in files ==> UserDisjoint(f, g)
  }

  predicate AfterFile(user: UserKey, f: File) {
    Compare(user, f.largest.user) > 0
  }

  predicate BeforeFile(user: UserKey, f: File) {
    Compare(user, f.smallest.user) < 0
  }

  /** some_file_overlaps_range: a scan of level 0, a binary search elsewhere. */
  method SomeFileOverlapsRange(v: Version, level: nat, smallest: UserKey, largest: UserKey) returns (r: bool)
    requires LevelsOk(v) && SequencesFit(v) && level < NUM_LEVELS
    requires Rank(smallest) <= Rank(largest)
    ensures r <==> exists f :: f in v[level] && Overlaps(f, Some(smallest), Some(largest))
  {
    var files := v[level];
    if level == 0 {
      for i := 0 to |files|
        invariant forall j :: 0 <= j < i ==> !Overlaps(files[j], Some(smallest), Some(largest))
      {
        if !AfterFile(smallest, files[i]) && !BeforeFile(largest, files[i]) {
          assert Overlaps(files[i], Some(smallest), Some(largest));
          return true;
        }
      }
      return false;
    }
    var probe := InternalKey(smallest, MAX_SEQUENCE, Value);
    var index := FindFile(files, probe);
    SortedLevelRanks(files);
    forall i | 0 <= i < |files|
      ensures AtMost(probe, files[i].largest) <==> Rank(smallest) <= Rank(files[i].largest.user) {
      LargestFits(v, level, files[i]);
    }
    if index >= |files| {
      return false;
    }
    r := !BeforeFile(largest, files[index]);
    if r {
      assert Overlaps(files[index], Some(smallest), Some(largest));
    }
  }

  lemma LargestFits(v: Version, level: nat, f: File)
    requires LevelsOk(v) && SequencesFit(v) && level < NUM_LEVELS && f in v[level]
    ensures f.largest.sequence <= MAX_SEQUENCE
  {
    StoreHas(v, level, f, f.entries[|f.entries| - 1]);
  }

  /** From this level the file may go one deeper: the next one is clear, and the
      one after holds little that overlaps it. */
  ghost predicate MaySink(v: Version, f: File, level: nat, maxFileSize: nat)
    requires |v| == NUM_LEVELS && level + 2 < NUM_LEVELS
  {
    && Clear(v[level + 1], f)
    && TotalFileSize(Overlapping(v[level + 2], Some(f.smallest.user), Some(f.largest.user))) <= 10 * maxFileSize
  }

  lemma OverlapIsNotClear(files: seq<File>, f: File)
    requires exists g :: g in files && Overlaps(g, Some(f.smallest.user), Some(f.largest.user))
    ensures !Clear(files, f)
  {
    var g :| g in files && Overlaps(g, Some(f.smallest.user), Some(f.largest.user));
    assert !UserDisjoint(f, g);
  }

  /** pick_level_for_memtable_output: it stays in level 0 if that is not clear;
      else it is as deep as it may sink, but no deeper than level 2. */
  method PickLevelForMemtableOutput(v: Version, f: File, maxFileSize: nat) returns (level: nat)
    requires LevelsOk(v) && SequencesFit(v) && FileOk(f)
    ensures level <= MAX_MEM_COMPACT_LEVEL
    ensures PlacementOk(v, f, level)
    ensures forall l :: 0 <= l < level ==> MaySink(v, f, l, maxFileSize)
    ensures level == MAX_MEM_COMPACT_LEVEL || (level == 0 && !Clear(v[0], f)) || !MaySink(v, f, level, maxFileSize)
  {
    var smallest, largest := f.smallest.user, f.largest.user;
    BoundsInOrder(f);
    level := 0;
    var overlaps := SomeFileOverlapsRange(v, 0, smallest, largest);
    if overlaps {
      OverlapIsNotClear(v[0], f);
      return;
    }
    assert Clear(v[0], f);
    while level < MAX_MEM_COMPACT_LEVEL
      invariant level <= MAX_MEM_COMPACT_LEVEL
      invariant forall l :: 0 <= l <= level ==> Clear(v[l], f)
      invariant forall l :: 0 <= l < level ==> MaySink(v, f, l, maxFileSize)
    {
      overlaps := SomeFileOverlapsRange(v, level + 1, smallest, largest);
      if overlaps {
        OverlapIsNotClear(v[level + 1], f);
        break;
      }
      assert Clear(v[level + 1], f);
      if level + 2 < NUM_LEVELS {
        var grandparents, _, _ := GetOverlappingInputs(v[level + 2], false,
          Some(InternalKey(smallest, MAX_SEQUENCE, Value)), Some(InternalKey(largest, 0, Deletion)));
        if TotalFileSize(grandparents) > 10 * maxFileSize {
          break;
        }
      }
      level := level + 1;
    }
  }
}
