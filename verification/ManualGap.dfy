/** compact_range can take inputs with a gap between them, and a flush in the
    middle of such a compaction may land in the gap at the output level.

    `ManualGapBreaksLevels` is a run of the engine's own steps in which it does:
    two files at level 1, a request that takes both (`AskForAll`), a flush placed
    at level 2 between them, and a finish that writes one output around it.
    `LevelRuns.FlushIff` says exactly which flushes make this possible, and
    `LevelRuns.PickedRunIsSound` that picked compactions never do. */
module ManualGap {
  import opened Keys
  import opened Entries
  import opened Levels
  import opened CompactionInputs
  import opened CompactionWork
  import opened FlushPlacement
  import opened LevelReplace
  import opened LevelRuns

  function Put(byte: Byte, sequence: nat): Entry {
    Entry(InternalKey([byte], sequence, Value), [])
  }

  function OneEntryFile(number: nat, e: Entry): File {
    File(number, 1, e.key, e.key, [e])
  }

  const Left := OneEntryFile(1, Put(1, 1))
  const Right := OneEntryFile(2, Put(3, 2))
  const Flushed := OneEntryFile(3, Put(2, 3))

  const Empty: Version := [[], [], [], [], [], [], []]
  const First: Version := [[], [Left], [], [], [], [], []]
  const Before: Version := [[], [Left, Right], [], [], [], [], []]
  const Midway: Version := [[], [Left, Right], [Flushed], [], [], [], []]

  lemma RanksInGap()
    ensures Rank([1]) < Rank([2]) < Rank([3])
  {
    RankIsLexicographic([1], [2]);
    RankIsLexicographic([2], [3]);
    assert LexLess([1], [2]) && LexLess([2], [3]);
  }

  // ------------------------------------------------------------------ the run

  ghost function Start(): State {
    State(Empty, 1, 0, 0, {}, None)
  }

  ghost function AfterFlush(s: State, f: File, v: Version): State {
    s.(version := v, nextFile := f.number + 1, flushed := f.number, history := s.history + SetOf(f.entries))
  }

  ghost function AfterBegin(s: State, in0: seq<File>, snapshot: nat): State {
    s.(job := Some(Job(s.version, 1, in0, [], snapshot, s.flushed)))
  }

  /** One of the flushes: everything in its way has another user key. */
  lemma GapFlush(s: State, f: File, level: nat, v: Version)
    requires f == Left || f == Right || f == Flushed
    requires (f == Left && s.version == Empty && v == First && level == 1) ||
             (f == Right && s.version == First && v == Before && level == 1) ||
             (f == Flushed && s.version == Before && v == Midway && level == 2)
    requires s.nextFile == f.number && s.flushed == f.number - 1
    ensures Flush(s, AfterFlush(s, f, v), f, level)
  {
    RanksInGap();
    assert SetOf(f.entries) == {f.entries[0]};
    forall l | 0 <= l <= level ensures Clear(s.version[l], f) {
      assert forall g :: g in s.version[l] ==> l == 1 && (g == Left || (g == Right && f == Flushed));
    }
    AddedInOrder(v);
    assert FileAdded(s.version, level, f, v);
  }

  lemma AddedInOrder(v: Version)
    requires v == First || v == Before || v == Midway
    ensures forall l :: 0 <= l < NUM_LEVELS ==> VersionBuilder.InOrder(v[l])
  {
    RanksInGap();
    assert CompareInternal(Left.smallest, Right.smallest) < 0;
  }

  /** The two files of level 1, in whatever order. */
  ghost predicate IsBoth(in0: seq<File>) {
    forall f :: f in in0 <==> f == Left || f == Right
  }

  lemma GapBegin(s: State, in0: seq<File>, snapshot: nat)
    requires s.version == Before && s.job.None? && IsBoth(in0) && snapshot < MAX_SEQUENCE
    ensures Begin(s, AfterBegin(s, in0, snapshot), 1, in0, [], snapshot)
  {
    assert Left in in0;
    assert InputsOk(Before, 1, in0, []);
  }

  const Merged := [Put(1, 1), Put(3, 2)]

  /** Both entries are kept, one on each side of the flushed file. */
  lemma GapStraddles(j: Job)
    requires j.base == Before && IsBoth(j.in0) && j.in1 == []
    ensures StraddledBy(j, Flushed, Merged, Put(1, 1), Put(3, 2))
    ensures KeptOf(j, Merged) == Merged
  {
    RanksInGap();
    forall e ensures e in SetOf(Merged) <==> e in EntriesOf(j.in0 + j.in1) {
      if e in SetOf(Merged) {
        var f := if e == Put(1, 1) then Left else Right;
        assert f in j.in0 + j.in1 && e in f.entries;
      }
      if e in EntriesOf(j.in0 + j.in1) {
        var f :| f in j.in0 + j.in1 && e in f.entries;
        assert e == f.entries[0];
      }
    }
    BothKept(j.snapshot, j.base, j.level);
  }

  lemma BothKept(snapshot: nat, v: Version, level: nat)
    requires |v| == NUM_LEVELS
    ensures Kept(Merged, snapshot, v, level, 2) == Merged
  {
    assert !Drops(Merged, snapshot, v, level, 0) && !Drops(Merged, snapshot, v, level, 1);
    assert Kept(Merged, snapshot, v, level, 1) == [Merged[0]];
  }

  lemma GapFinish(s: State) returns (output: File, s': State)
    requires StoreInv(s) && s.version == Midway && s.nextFile == 4 && s.job.Some?
    requires s.job.value.base == Before && s.job.value.level == 1 && IsBoth(s.job.value.in0) && s.job.value.in1 == []
    ensures Straddled(s.job.value, Flushed)
    ensures Finish(s, s', Merged, [output]) && output.entries == Merged && !LevelsOk(s'.version)
  {
    GapStraddles(s.job.value);
    output, s' := GapBreaks(s, Flushed, Merged, Put(1, 1), Put(3, 2));
    assert Flatten([output]) == output.entries;
  }

  lemma IsARun(s0: State, s1: State, s2: State, s3: State, s4: State, s5: State)
    requires Init(s0) && Next(s0, s1) && Next(s1, s2) && Next(s2, s3) && Next(s3, s4) && Next(s4, s5)
    ensures LevelRuns.IsRun([s0, s1, s2, s3, s4, s5])
  {
  }

  lemma GapIsNotConnected(in0: seq<File>)
    requires IsBoth(in0)
    ensures !Connected(in0)
  {
    RanksInGap();
    assert Left in in0 && Right in in0;
    assert !Covered([2], in0);
  }

  /** A run that breaks the level invariant: the flush from s3 lands in the gap
      of the compaction under way, and the finish writes around it. */
  lemma ManualGapBreaksLevels(in0: seq<File>, snapshot: nat)
    returns (s0: State, s1: State, s2: State, s3: State, s4: State, s5: State, output: File)
    requires IsBoth(in0) && snapshot < MAX_SEQUENCE
    ensures LevelRuns.IsRun([s0, s1, s2, s3, s4, s5])
    ensures s2.version == Before && Begin(s2, s3, 1, in0, [], snapshot) && !Connected(in0)
    ensures Flush(s3, s4, Flushed, 2) && LandsInGap(s3, Flushed, 2)
    ensures Finish(s4, s5, Merged, [output]) && output.entries == Merged
    ensures LevelsOk(s0.version) && LevelsOk(s1.version) && LevelsOk(s2.version) && LevelsOk(s3.version)
    ensures LevelsOk(s4.version) && !LevelsOk(s5.version)
  {
    s0 := Start();
    s1 := AfterFlush(s0, Left, First);
    s2 := AfterFlush(s1, Right, Before);
    s3 := AfterBegin(s2, in0, snapshot);
    s4 := AfterFlush(s3, Flushed, Midway);
    InitIsSound(s0);
    GapFlush(s0, Left, 1, First);
    FlushKeepsInv(s0, s1, Left, 1);
    GapFlush(s1, Right, 1, Before);
    FlushKeepsInv(s1, s2, Right, 1);
    GapBegin(s2, in0, snapshot);
    GapIsNotConnected(in0);
    BeginKeepsInv(s2, s3, 1, in0, [], snapshot);
    GapFlush(s3, Flushed, 2, Midway);
    FlushKeepsStore(s3, s4, Flushed, 2);
    output, s5 := GapFinish(s4);
    IsARun(s0, s1, s2, s3, s4, s5);
  }

  /** What compact_range answers when asked for all of level 1. */
  method AskForAll(maxFileSize: nat) returns (in0: seq<File>, in1: seq<File>)
    requires maxFileSize > 2
    ensures IsBoth(in0) && in1 == []
  {
    BeforeOk();
    var found;
    ghost var seed;
    found, in0, in1, seed := CompactRange(Before, 1, None, None, maxFileSize);
    assert Left in Before[1] && Overlaps(Left, None, None);
    AllTaken(maxFileSize, in0, in1, seed);
  }

  lemma SomeFile(files: seq<File>)
    ensures files != [] ==> exists f :: f in files
  {
    if files != [] {
      assert files[0] in files;
    }
  }

  lemma AllTaken(limit: nat, in0: seq<File>, in1: seq<File>, seed: seq<File>)
    requires limit > 2 && IsCut(Overlapping(Before[1], None, None), limit, seed)
    requires forall f :: f in seed ==> f in in0
    requires (forall f :: f in in0 ==> f in Before[1]) && forall f :: f in in1 ==> f in Before[2]
    ensures IsBoth(in0) && in1 == []
  {
    WholeSeed(limit, seed);
    assert Left in seed && Right in seed;
    SomeFile(in1);
  }

  lemma BeforeOk()
    ensures LevelsOk(Before)
  {
    var _, _, s2, _, _, _, _ := ManualGapBreaksLevels([Left, Right], 0);
  }

  /** Two files of size one are below any limit above two: none is cut off. */
  lemma WholeSeed(limit: nat, seed: seq<File>)
    requires limit > 2 && IsCut(Overlapping(Before[1], None, None), limit, seed)
    ensures seed == [Left, Right]
  {
    assert OverlappingUpTo(Before[1], None, None, 1) == [Left];
    assert Overlapping(Before[1], None, None) == [Left, Right];
    assert [Left, Right][1..] == [Right] && [Right][1..] == [] && [Left][1..] == [];
    assert TotalFileSize([Left, Right]) == 2 && TotalFileSize([Left]) == 1;
    assert seed == [Left] || seed == [Left, Right];
  }
}
