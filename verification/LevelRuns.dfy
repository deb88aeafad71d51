/** Runs of the background thread: flushes, trivial moves and compactions,
    picked or asked for, with flushes installed in the middle of a compaction.

    `RunIsSound` is the main result.  At every point of every run in which no
    flush lands in a gap the level invariant holds, and for every user key and
    every snapshot at or above the horizon (the largest smallest-live-snapshot a
    compaction has used) a read of the installed version returns what a read of
    everything ever flushed would return.

    To land in a gap is to go to the output level of the compaction under way,
    with entries that compaction keeps on both sides.  `FlushIff` says this is
    exact: a flush can be followed by a finish that breaks the levels if and
    only if it landed in a gap.  `ConnectedHasNoGap` says that no flush can where
    the inputs form one connected interval, as picked ones do. */
module LevelRuns {
  import opened Keys
  import opened Entries
  import opened Levels
  import opened CompactionInputs
  import opened CompactionWork
  import opened FlushPlacement
  import opened VersionBuilder
  import opened LevelReplace

  /** A compaction in progress: the version it was picked from, its inputs, the
      smallest live snapshot, and a bound on the sequences in its inputs. */
  datatype Job = Job(base: Version, level: nat, in0: seq<File>, in1: seq<File>, snapshot: nat, bound: nat)

  /** `flushed` bounds every sequence number flushed so far; `history` is every
      entry ever flushed. */
  datatype State = State(version: Version, nextFile: nat, flushed: nat, horizon: nat, history: set<Entry>,
      job: Option<Job>)

  ghost function Max(a: nat, b: nat): nat {
    if a < b then b else a
  }

  // ------------------------------------------------------------------ steps

  ghost predicate Init(s: State) {
    && |s.version| == NUM_LEVELS
    && (forall l :: 0 <= l < NUM_LEVELS ==> s.version[l] == [])
    && s.history == {} && s.job.None? && s.flushed == 0 && s.horizon == 0
  }

  ghost predicate FileAdded(v: Version, level: nat, f: File, v': Version) {
    && |v| == |v'| == NUM_LEVELS && level < NUM_LEVELS
    && (forall l :: 0 <= l < NUM_LEVELS ==> InOrder(v'[l]))
    && (forall l, g {:trigger g in v'[l]} :: 0 <= l < NUM_LEVELS ==>
        (g in v'[l] <==> g in v[l] || (l == level && g == f)))
  }

  /** A memtable becomes a table: newer than everything flushed before it, with
      a fresh number, at the level the placement rule allows. */
  ghost predicate Flush(s: State, s': State, f: File, level: nat) {
    && FileOk(f) && s.nextFile <= f.number < s'.nextFile
    && (forall e :: e in f.entries ==> s.flushed < e.key.sequence <= s'.flushed)
    && Distinct(SetOf(f.entries))
    && PlacementOk(s.version, f, level)
    && FileAdded(s.version, level, f, s'.version)
    && s'.flushed < MAX_SEQUENCE
    && s' == s.(version := s'.version, nextFile := s'.nextFile, flushed := s'.flushed,
        history := s.history + SetOf(f.entries))
  }

  /** pick_compaction or compact_range, and the choice of the smallest live
      snapshot. */
  ghost predicate Begin(s: State, s': State, level: nat, in0: seq<File>, in1: seq<File>, snapshot: nat) {
    && s.job.None?
    && InputsOk(s.version, level, in0, in1)
    && snapshot < MAX_SEQUENCE
    && s' == s.(job := Some(Job(s.version, level, in0, in1, snapshot, s.flushed)))
  }

  /** What the merging iterator walks. */
  ghost predicate IsMerged(j: Job, merged: seq<Entry>) {
    Sorted(merged) && SetOf(merged) == EntriesOf(j.in0 + j.in1)
  }

  ghost function KeptOf(j: Job, merged: seq<Entry>): seq<Entry>
    requires |j.base| == NUM_LEVELS
  {
    Kept(merged, j.snapshot, j.base, j.level, |merged|)
  }

  /** A picked compaction of one file with nothing to merge: the file moves. */
  ghost predicate TrivialMove(s: State, s': State, level: nat, f: File) {
    && s.job.None?
    && InputsOk(s.version, level, [f], [])
    && Replaced(s.version, level, [f], [], [f], s'.version)
    && s' == s.(version := s'.version)
  }

  /** The outputs of a finished job take the place of its inputs. */
  ghost predicate Finish(s: State, s': State, merged: seq<Entry>, outputs: seq<File>) {
    && s.job.Some?
    && var j := s.job.value;
    && IsMerged(j, merged)
    && |j.base| == NUM_LEVELS && Flatten(outputs) == KeptOf(j, merged)
    && (forall o :: o in outputs ==> Bounded(o) && s.nextFile <= o.number < s'.nextFile && o.number < ABOVE_ALL_FILES)
    && (forall o, p :: o in outputs && p in outputs && o.number == p.number ==> o == p)
    && Replaced(s.version, j.level, j.in0, j.in1, outputs, s'.version)
    && s.nextFile <= s'.nextFile
    && s' == s.(version := s'.version, nextFile := s'.nextFile, horizon := Max(s.horizon, j.snapshot), job := None)
  }

  /** A shutdown or an error drops the job and leaves the version alone. */
  ghost predicate Abandon(s: State, s': State) {
    s.job.Some? && s' == s.(job := None)
  }

  ghost predicate Next(s: State, s': State) {
    || (exists f, level :: Flush(s, s', f, level))
    || (exists level, in0, in1, snapshot :: Begin(s, s', level, in0, in1, snapshot))
    || (exists level, f :: TrivialMove(s, s', level, f))
    || (exists merged, outputs :: Finish(s, s', merged, outputs))
    || Abandon(s, s')
  }

  ghost predicate IsRun(states: seq<State>) {
    && |states| > 0 && Init(states[0])
    && forall i :: 0 <= i < |states| - 1 ==> Next(states[i], states[i + 1])
  }

  // -------------------------------------------------------------- invariant

  /** A file of a deep level was there when the job was picked, or is newer
      than every input of the job. */
  ghost predicate DeepIsBaseOrNewer(v: Version, j: Job) {
    forall m, g {:trigger g in v[m]} :: j.level + 2 <= m < NUM_LEVELS == |v| && g in v[m] ==>
      |j.base| == NUM_LEVELS && (g in j.base[m] || forall e :: e in g.entries ==> e.key.sequence > j.bound)
  }

  /** The compaction keeps entries on both sides of g. */
  ghost predicate StraddledBy(j: Job, g: File, merged: seq<Entry>, a: Entry, b: Entry) {
    && IsMerged(j, merged) && |j.base| == NUM_LEVELS
    && a in KeptOf(j, merged) && b in KeptOf(j, merged)
    && Less(a.key, g.smallest) && Less(g.largest, b.key)
  }

  ghost predicate Straddled(j: Job, g: File) {
    exists merged, a, b :: StraddledBy(j, g, merged, a, b)
  }

  /** No file left behind in the output level is straddled. */
  ghost predicate Unstraddled(v: Version, j: Job)
    requires |v| == NUM_LEVELS && j.level + 1 < NUM_LEVELS
  {
    forall g :: g in v[j.level + 1] && g !in j.in1 ==> !Straddled(j, g)
  }

  /** The flush goes to the output level of the compaction under way, between
      entries that compaction keeps. */
  ghost predicate LandsInGap(s: State, f: File, level: nat) {
    s.job.Some? && level == s.job.value.level + 1 && Straddled(s.job.value, f)
  }

  ghost predicate JobOk(v: Version, j: Job) {
    && LevelsOk(j.base)
    && GapInputsOk(v, j.level, j.in0, j.in1)
    && j.snapshot < MAX_SEQUENCE
    && (forall e :: e in EntriesOf(j.in0 + j.in1) ==> e.key.sequence <= j.bound)
    && DeepIsBaseOrNewer(v, j)
  }

  ghost predicate SameViews(a: set<Entry>, b: set<Entry>, horizon: nat) {
    forall user, snapshot :: snapshot >= horizon ==> View(a, user, snapshot) == View(b, user, snapshot)
  }

  ghost predicate Inv(s: State) {
    StoreInv(s) && (s.job.Some? ==> Unstraddled(s.version, s.job.value))
  }

  /** The part of the invariant that no flush can break. */
  ghost predicate StoreInv(s: State) {
    && LevelsOk(s.version)
    && (forall l, f {:trigger f in s.version[l]} :: 0 <= l < NUM_LEVELS && f in s.version[l] ==> f.number < s.nextFile)
    && s.flushed < MAX_SEQUENCE
    && Store(s.version) <= s.history && Distinct(s.history)
    && (forall e :: e in s.history ==> e.key.sequence <= s.flushed)
    && SameViews(Store(s.version), s.history, s.horizon)
    && (s.job.Some? ==> JobOk(s.version, s.job.value) && s.job.value.bound <= s.flushed)
  }

  // ------------------------------------------------------------------ flush

  /** A range that touches none of the files of a connected interval lies to
      one side of it.  This is what keeps a flush off the outputs. */
  lemma ClearOfConnected(f: File, files: seq<File>)
    requires FileOk(f) && files != [] && (forall g :: g in files ==> FileOk(g))
    requires Connected(files)
    requires forall g :: g in files ==> UserDisjoint(f, g)
    ensures Aside(f, files)
  {
    BoundsInOrder(f);
    assert !Covered(f.smallest.user, files);
    var a := files[0];
    forall g | g in files
      ensures Rank(f.largest.user) < Rank(a.smallest.user) <==> Rank(f.largest.user) < Rank(g.smallest.user)
    {
      BoundsInOrder(a);
      BoundsInOrder(g);
    }
  }

  lemma UserDisjointSharesNothing(f: File, g: File, e: Entry, d: Entry)
    requires FileOk(f) && FileOk(g) && UserDisjoint(f, g)
    requires e in f.entries && d in g.entries
    ensures e.key.user != d.key.user
  {
    EntryInBounds(f, e);
    EntryInBounds(g, d);
  }

  lemma FlushRecency(v: Version, level: nat, f: File, v': Version, flushed: nat)
    requires LevelsOk(v) && FileOk(f) && PlacementOk(v, f, level) && FileAdded(v, level, f, v')
    requires forall l, g {:trigger g in v[l]} :: 0 <= l < NUM_LEVELS && g in v[l] ==> g.number < f.number
    requires forall e :: e in f.entries ==> flushed < e.key.sequence
    requires forall e :: e in Store(v) ==> e.key.sequence <= flushed
    ensures Recency(v')
  {
    forall l, m, g, h | 0 <= l < m < NUM_LEVELS && g in v'[l] && h in v'[m] ensures NewerThan(g, h) {
      forall e, d | e in g.entries && d in h.entries && e.key.user == d.key.user
        ensures e.key.sequence > d.key.sequence {
        if m == level && h == f {
          assert g in v[l] && Clear(v[l], f);
          UserDisjointSharesNothing(f, g, d, e);
        } else {
          StoreHas(v, m, h, d);
          assert g in v[l] ==> NewerThan(g, h);
        }
      }
    }
    forall g, h | g in v'[0] && h in v'[0] && g.number > h.number ensures NewerThan(g, h) {
      if h in v[0] && g !in v[0] {
        forall d | d in h.entries ensures d.key.sequence <= flushed {
          StoreHas(v, 0, h, d);
        }
      }
    }
  }

  lemma FlushStore(v: Version, level: nat, f: File, v': Version)
    requires FileAdded(v, level, f, v')
    ensures Store(v') == Store(v) + SetOf(f.entries)
  {
    forall e ensures e in Store(v') <==> e in Store(v) + SetOf(f.entries) {
      if e in Store(v') {
        var l, g :| 0 <= l < |v'| && g in v'[l] && e in g.entries;
        assert g in v[l] || g == f;
      }
      if e in Store(v) {
        var l, g :| 0 <= l < |v| && g in v[l] && e in g.entries;
        assert g in v'[l];
        StoreHas(v', l, g, e);
      }
      if e in f.entries {
        assert f in v'[level];
        StoreHas(v', level, f, e);
      }
    }
  }

  lemma FlushKeepsDisjoint(v: Version, level: nat, f: File, v': Version, l: nat)
    requires LevelsOk(v) && FileOk(f) && PlacementOk(v, f, level) && FileAdded(v, level, f, v')
    requires 1 <= l < NUM_LEVELS
    ensures DisjointSorted(v'[l])
  {
    SortedIsPairwise(v[l]);
    assert l == level ==> Clear(v[l], f);
    forall g, h | g in v'[l] && h in v'[l] && g != h
      ensures Less(g.largest, h.smallest) || Less(h.largest, g.smallest)
    {
    }
    DisjointInOrder(v'[l]);
  }

  lemma FlushFilesOk(v: Version, level: nat, f: File, v': Version)
    requires FilesOk(v) && FileOk(f) && FileAdded(v, level, f, v')
    requires forall l, g {:trigger g in v[l]} :: 0 <= l < NUM_LEVELS && g in v[l] ==> g.number < f.number
    ensures FilesOk(v')
  {
  }

  lemma DistinctUnion(a: set<Entry>, b: set<Entry>, flushed: nat)
    requires Distinct(a) && Distinct(b)
    requires forall e :: e in a ==> e.key.sequence <= flushed
    requires forall e :: e in b ==> flushed < e.key.sequence
    ensures Distinct(a + b)
  {
  }

  lemma FlushKeepsJob(s: State, s': State, f: File, level: nat)
    requires StoreInv(s) && Flush(s, s', f, level) && s.job.Some?
    ensures JobOk(s'.version, s.job.value)
  {
    var v, v', j := s.version, s'.version, s.job.value;
    forall a, g | a in j.in0 && g in v'[j.level] && g !in j.in0 ensures NewerThan(g, a) {
      if g == f {
        forall d | d in a.entries ensures d.key.sequence <= s.flushed {
          StoreHas(v, j.level, a, d);
        }
      }
    }
    forall a, g | a in j.in0 + j.in1 && g in v'[j.level + 1] && g !in j.in1
      ensures Less(g.largest, a.smallest) || Rank(a.largest.user) < Rank(g.smallest.user)
    {
      if g == f && level == j.level + 1 {
        assert Clear(v[j.level], f) && Clear(v[j.level + 1], f);
        assert UserDisjoint(f, a);
      }
    }
    forall m, g | j.level + 2 <= m < NUM_LEVELS && g in v'[m]
      ensures g in j.base[m] || forall e :: e in g.entries ==> e.key.sequence > j.bound
    {
      assert g in v[m] || g == f;
    }
  }

  /** Inputs that form one connected interval leave no gap to land in. */
  lemma ConnectedHasNoGap(s: State, s': State, f: File, level: nat)
    requires StoreInv(s) && Flush(s, s', f, level) && s.job.Some? && Connected(s.job.value.in0 + s.job.value.in1)
    ensures !LandsInGap(s, f, level)
  {
    var j := s.job.value;
    if level == j.level + 1 {
      var ins := j.in0 + j.in1;
      forall g | g in ins ensures FileOk(g) && UserDisjoint(f, g) {
        assert Clear(s.version[j.level], f) && Clear(s.version[j.level + 1], f);
      }
      assert j.in0[0] in ins;
      ClearOfConnected(f, ins);
      AsideIsNotStraddled(s.version, j, f);
    }
  }

  /** A file wholly to one side of the inputs is not straddled. */
  lemma AsideIsNotStraddled(v: Version, j: Job, g: File)
    requires FilesOk(v) && GapInputsOk(v, j.level, j.in0, j.in1) && FileOk(g) && Aside(g, j.in0 + j.in1)
    ensures !Straddled(j, g)
  {
    if merged, a, b :| StraddledBy(j, g, merged, a, b) {
      KeptSorted(merged, j.snapshot, j.base, j.level, |merged|);
      assert a in SetOf(merged) && b in SetOf(merged);
      var f := InputFile(v, j.level, j.in0, j.in1, a);
      var h := InputFile(v, j.level, j.in0, j.in1, b);
      NoRoomAside(g, j.in0 + j.in1, f, h, a, b);
    }
  }

  lemma FlushKeepsUnstraddled(s: State, s': State, f: File, level: nat)
    requires Inv(s) && Flush(s, s', f, level) && s.job.Some? && !LandsInGap(s, f, level)
    ensures Unstraddled(s'.version, s.job.value)
  {
    var j := s.job.value;
    forall g | g in s'.version[j.level + 1] && g !in j.in1 ensures !Straddled(j, g) {
      assert g in s.version[j.level + 1] || (level == j.level + 1 && g == f);
    }
  }

  lemma FlushKeepsInv(s: State, s': State, f: File, level: nat)
    requires Inv(s) && Flush(s, s', f, level) && !LandsInGap(s, f, level)
    ensures Inv(s')
  {
    FlushKeepsStore(s, s', f, level);
    if s.job.Some? {
      FlushKeepsUnstraddled(s, s', f, level);
    }
  }

  lemma FlushKeepsStore(s: State, s': State, f: File, level: nat)
    requires StoreInv(s) && Flush(s, s', f, level)
    ensures StoreInv(s')
  {
    var v, v', added := s.version, s'.version, SetOf(f.entries);
    FlushFilesOk(v, level, f, v');
    FlushRecency(v, level, f, v', s.flushed);
    FlushStore(v, level, f, v');
    forall l | 1 <= l < NUM_LEVELS ensures DisjointSorted(v'[l]) {
      FlushKeepsDisjoint(v, level, f, v', l);
    }
    DistinctUnion(Store(v), added, s.flushed);
    DistinctUnion(s.history, added, s.flushed);
    forall user, snapshot | snapshot >= s.horizon
      ensures View(Store(v'), user, snapshot) == View(s'.history, user, snapshot)
    {
      ViewOfNewer(Store(v), s.history, added, user, snapshot);
    }
    if s.job.Some? {
      FlushKeepsJob(s, s', f, level);
    }
  }

  // -------------------------------------------------------- replacing files

  /** Everything in the store that is not in an input. */
  ghost function Rest(v: Version, level: nat, in0: seq<File>, in1: seq<File>): set<Entry> {
    set l, f, e | 0 <= l < |v| && f in v[l] && Stays(v, level, in0, in1, l, f) && e in f.entries :: e
  }

  lemma StoreSplits(v: Version, level: nat, in0: seq<File>, in1: seq<File>)
    requires GapInputsOk(v, level, in0, in1)
    ensures Store(v) == Rest(v, level, in0, in1) + EntriesOf(in0 + in1)
  {
    forall e ensures e in Store(v) <==> e in Rest(v, level, in0, in1) + EntriesOf(in0 + in1) {
      if e in Store(v) {
        var l, f :| 0 <= l < |v| && f in v[l] && e in f.entries;
        if !Stays(v, level, in0, in1, l, f) {
          assert f in in0 + in1;
        }
      }
      if e in EntriesOf(in0 + in1) {
        var f :| f in in0 + in1 && e in f.entries;
        StoreHas(v, if f in in0 then level else level + 1, f, e);
      }
    }
  }

  lemma ReplacedStoreSplits(v: Version, level: nat, in0: seq<File>, in1: seq<File>, outputs: seq<File>, v': Version)
    requires Replaced(v, level, in0, in1, outputs, v')
    ensures Store(v') == Rest(v, level, in0, in1) + EntriesOf(outputs)
  {
    forall e ensures e in Store(v') <==> e in Rest(v, level, in0, in1) + EntriesOf(outputs) {
      if e in Store(v') {
        var l, f :| 0 <= l < |v'| && f in v'[l] && e in f.entries;
        assert Stays(v, level, in0, in1, l, f) || f in outputs;
      }
      if e in Rest(v, level, in0, in1) {
        var l, f :| 0 <= l < |v| && f in v[l] && Stays(v, level, in0, in1, l, f) && e in f.entries;
        assert f in v'[l];
        StoreHas(v', l, f, e);
      }
      if e in EntriesOf(outputs) {
        var f :| f in outputs && e in f.entries;
        assert f in v'[level + 1];
        StoreHas(v', level + 1, f, e);
      }
    }
  }

  lemma OutputsAreKept(outputs: seq<File>, kept: seq<Entry>)
    requires Flatten(outputs) == kept
    ensures EntriesOf(outputs) == SetOf(kept)
  {
    forall e ensures e in EntriesOf(outputs) <==> e in SetOf(kept) {
      FlattenMembers(outputs, e);
    }
  }

  /** What is left behind holds no version older than an input's, once no deep
      file of the base version spans the key. */
  lemma RestIsNewer(v: Version, j: Job, d: Entry, x: Entry)
    requires LevelsOk(v) && JobOk(v, j)
    requires d in EntriesOf(j.in0 + j.in1) && x in Rest(v, j.level, j.in0, j.in1)
    requires d.key.user == x.key.user && IsBase(j.base, j.level, d.key.user)
    ensures d.key.sequence < x.key.sequence
  {
    var f := InputFile(v, j.level, j.in0, j.in1, d);
    var l, g := RestFile(v, j.level, j.in0, j.in1, x);
    if l >= j.level + 2 {
      DeepIsSpanned(v, j, l, g, d, x);
    } else {
      NearIsNewer(v, j.level, j.in0, j.in1, f, l, g, d, x);
    }
  }

  lemma InputFile(v: Version, level: nat, in0: seq<File>, in1: seq<File>, d: Entry) returns (f: File)
    requires GapInputsOk(v, level, in0, in1) && d in EntriesOf(in0 + in1)
    ensures f in in0 + in1 && d in f.entries && d in Store(v)
  {
    f :| f in in0 + in1 && d in f.entries;
    StoreHas(v, if f in in0 then level else level + 1, f, d);
  }

  lemma RestFile(v: Version, level: nat, in0: seq<File>, in1: seq<File>, x: Entry) returns (l: nat, g: File)
    requires x in Rest(v, level, in0, in1)
    ensures l < |v| && g in v[l] && Stays(v, level, in0, in1, l, g) && x in g.entries && x in Store(v)
  {
    l, g :| 0 <= l < |v| && g in v[l] && Stays(v, level, in0, in1, l, g) && x in g.entries;
    StoreHas(v, l, g, x);
  }

  lemma NearIsNewer(v: Version, level: nat, in0: seq<File>, in1: seq<File>, f: File, l: nat, g: File, d: Entry,
                    x: Entry)
    requires LevelsOk(v) && GapInputsOk(v, level, in0, in1)
    requires f in in0 + in1 && d in f.entries && d in Store(v)
    requires l <= level + 1 && Stays(v, level, in0, in1, l, g) && x in g.entries && x in Store(v)
    requires d.key.user == x.key.user
    ensures d.key.sequence < x.key.sequence
  {
    if l <= level {
      UpperIsNewer(v, level, in0, in1, f, l, g);
    } else {
      BesideIsNewer(v, f, g, d, x);
    }
  }

  lemma UpperIsNewer(v: Version, level: nat, in0: seq<File>, in1: seq<File>, f: File, l: nat, g: File)
    requires |v| == NUM_LEVELS && Recency(v) && GapInputsOk(v, level, in0, in1)
    requires f in in0 + in1 && l <= level && Stays(v, level, in0, in1, l, g)
    ensures NewerThan(g, f)
  {
    if f in in0 {
      assert l < level ==> NewerThan(g, f);
    } else {
      assert f in v[level + 1];
    }
  }

  lemma BesideIsNewer(v: Version, f: File, g: File, d: Entry, x: Entry)
    requires FileOk(f) && FileOk(g) && Distinct(Store(v))
    requires d in f.entries && d in Store(v) && x in g.entries && x in Store(v)
    requires Less(g.largest, f.smallest) || Rank(f.largest.user) < Rank(g.smallest.user)
    requires d.key.user == x.key.user
    ensures d.key.sequence < x.key.sequence
  {
    EntryInBounds(f, d);
    EntryInBounds(g, x);
  }

  /** No flush has put a key of the inputs further down, so where one is there
      now, the compaction saw it when it began. */
  lemma DeepIsSpanned(v: Version, j: Job, l: nat, g: File, d: Entry, x: Entry)
    requires LevelsOk(v) && JobOk(v, j) && j.level + 2 <= l < NUM_LEVELS
    requires g in v[l] && x in g.entries && d in EntriesOf(j.in0 + j.in1) && d.key.user == x.key.user
    ensures !IsBase(j.base, j.level, d.key.user)
  {
    if g in j.base[l] {
      EntryInBounds(g, x);
    }
  }

  /** The views of the store survive a finished compaction. */
  lemma FinishKeepsViews(v: Version, j: Job, merged: seq<Entry>, outputs: seq<File>, v': Version, user: UserKey,
                         snapshot: nat)
    requires LevelsOk(v) && JobOk(v, j)
    requires IsMerged(j, merged) && Flatten(outputs) == KeptOf(j, merged)
    requires Replaced(v, j.level, j.in0, j.in1, outputs, v')
    requires snapshot >= j.snapshot
    ensures View(Store(v'), user, snapshot) == View(Store(v), user, snapshot)
  {
    var rest := Rest(v, j.level, j.in0, j.in1);
    StoreSplits(v, j.level, j.in0, j.in1);
    ReplacedStoreSplits(v, j.level, j.in0, j.in1, outputs, v');
    OutputsAreKept(outputs, KeptOf(j, merged));
    forall d, x | d in merged && x in rest && d.key.user == x.key.user == user && IsBase(j.base, j.level, user)
      ensures d.key.sequence < x.key.sequence
    {
      assert d in SetOf(merged);
      RestIsNewer(v, j, d, x);
    }
    KeptPreservesViews(rest, merged, j.snapshot, j.base, j.level, user, snapshot);
  }

  lemma FinishedOutputsFit(s: State, s': State, merged: seq<Entry>, outputs: seq<File>)
    requires StoreInv(s) && Finish(s, s', merged, outputs)
    ensures OutputsFit(s.version, s.job.value.level, s.job.value.in0, s.job.value.in1, outputs)
  {
    var j := s.job.value;
    var kept := KeptOf(j, merged);
    KeptSorted(merged, j.snapshot, j.base, j.level, |merged|);
    CutIsSorted(outputs);
    OutputsAreKept(outputs, kept);
    assert EntriesOf(outputs) <= SetOf(merged);
  }

  lemma ReplaceKeepsLevels(v: Version, level: nat, in0: seq<File>, in1: seq<File>, outputs: seq<File>, v': Version)
    requires LevelsOk(v) && InputsOk(v, level, in0, in1) && OutputsFit(v, level, in0, in1, outputs)
    requires Replaced(v, level, in0, in1, outputs, v')
    ensures LevelsOk(v')
    ensures Store(v') <= Store(v)
  {
    InputsOkAllowsGaps(v, level, in0, in1);
    ReplaceIff(v, level, in0, in1, outputs, v');
    ReplacedStore(v, level, in0, in1, outputs, v');
    forall g, o | g in v[level + 1] && g !in in1 && o in outputs ensures !Spans(o, g) {
      NothingIsSpanned(v, level, in0, in1, outputs, g, o);
    }
  }

  /** An output spans a file left behind only if that file is straddled. */
  lemma SpannedIsStraddled(s: State, s': State, merged: seq<Entry>, outputs: seq<File>, g: File, o: File)
    requires StoreInv(s) && Finish(s, s', merged, outputs) && o in outputs && Spans(o, g)
    ensures Straddled(s.job.value, g)
  {
    var j := s.job.value;
    OutputsAreKept(outputs, KeptOf(j, merged));
    var first, last := o.entries[0], o.entries[|o.entries| - 1];
    assert first in o.entries && last in o.entries;
    assert first in EntriesOf(outputs) && last in EntriesOf(outputs);
    assert StraddledBy(j, g, merged, first, last);
  }

  lemma FinishKeepsLevels(s: State, s': State, merged: seq<Entry>, outputs: seq<File>)
    requires Inv(s) && Finish(s, s', merged, outputs)
    ensures LevelsOk(s'.version) && Store(s'.version) <= Store(s.version)
  {
    var v, v', j := s.version, s'.version, s.job.value;
    FinishedOutputsFit(s, s', merged, outputs);
    ReplaceIff(v, j.level, j.in0, j.in1, outputs, v');
    ReplacedStore(v, j.level, j.in0, j.in1, outputs, v');
    forall g, o | g in v[j.level + 1] && g !in j.in1 && o in outputs ensures !Spans(o, g) {
      if Spans(o, g) {
        SpannedIsStraddled(s, s', merged, outputs, g, o);
      }
    }
  }

  lemma FinishKeepsInv(s: State, s': State, merged: seq<Entry>, outputs: seq<File>)
    requires Inv(s) && Finish(s, s', merged, outputs)
    ensures Inv(s')
  {
    var v, v', j := s.version, s'.version, s.job.value;
    FinishKeepsLevels(s, s', merged, outputs);
    forall l, f: File | 0 <= l < NUM_LEVELS && f in v'[l] ensures f.number < s'.nextFile {
      assert f in v[l] || f in outputs;
    }
    forall user, snapshot | snapshot >= s'.horizon
      ensures View(Store(v'), user, snapshot) == View(s'.history, user, snapshot)
    {
      FinishKeepsViews(v, j, merged, outputs, v', user, snapshot);
    }
  }

  lemma MoveFits(v: Version, level: nat, f: File)
    requires LevelsOk(v) && InputsOk(v, level, [f], [])
    ensures OutputsFit(v, level, [f], [], [f])
  {
    assert [f] + [] == [f] && f in [f];
    assert f in v[level];
  }

  lemma MoveKeepsStore(v: Version, level: nat, f: File, v': Version)
    requires LevelsOk(v) && InputsOk(v, level, [f], []) && Replaced(v, level, [f], [], [f], v')
    ensures Store(v') == Store(v)
  {
    InputsOkAllowsGaps(v, level, [f], []);
    StoreSplits(v, level, [f], []);
    ReplacedStoreSplits(v, level, [f], [], [f], v');
    assert [f] + [] == [f];
  }

  lemma MoveKeepsInv(s: State, s': State, level: nat, f: File)
    requires Inv(s) && TrivialMove(s, s', level, f)
    ensures Inv(s')
  {
    MoveFits(s.version, level, f);
    ReplaceKeepsLevels(s.version, level, [f], [], [f], s'.version);
    MoveKeepsStore(s.version, level, f, s'.version);
    assert f in [f];
  }

  lemma BeginKeepsInv(s: State, s': State, level: nat, in0: seq<File>, in1: seq<File>, snapshot: nat)
    requires Inv(s) && Begin(s, s', level, in0, in1, snapshot)
    ensures Inv(s')
  {
    InputsOkAllowsGaps(s.version, level, in0, in1);
    StoreSplits(s.version, level, in0, in1);
    BeginIsUnstraddled(s.version, s'.job.value);
  }

  lemma BeginIsUnstraddled(v: Version, j: Job)
    requires FilesOk(v) && InputsOk(v, j.level, j.in0, j.in1)
    ensures Unstraddled(v, j)
  {
    InputsOkAllowsGaps(v, j.level, j.in0, j.in1);
    forall g | g in v[j.level + 1] && g !in j.in1 ensures !Straddled(j, g) {
      AsideIsNotStraddled(v, j, g);
    }
  }

  // ------------------------------------------------------------------- runs

  lemma InitIsSound(s: State)
    requires Init(s)
    ensures Inv(s)
  {
    assert Store(s.version) == {};
  }

  /** If this step is a flush, it does not land in a gap. */
  ghost predicate OffGaps(s: State, s': State) {
    forall f, level :: Flush(s, s', f, level) ==> !LandsInGap(s, f, level)
  }

  lemma NextKeepsInv(s: State, s': State)
    requires Inv(s) && Next(s, s') && OffGaps(s, s')
    ensures Inv(s')
  {
    if f, level :| Flush(s, s', f, level) {
      FlushKeepsInv(s, s', f, level);
    } else if level, in0, in1, snapshot :| Begin(s, s', level, in0, in1, snapshot) {
      BeginKeepsInv(s, s', level, in0, in1, snapshot);
    } else if level, f :| TrivialMove(s, s', level, f) {
      MoveKeepsInv(s, s', level, f);
    } else if merged, outputs :| Finish(s, s', merged, outputs) {
      FinishKeepsInv(s, s', merged, outputs);
    }
  }

  /** Every state of every run whose flushes stay off the gaps. */
  lemma {:induction false} RunIsSound(states: seq<State>, i: nat)
    requires IsRun(states) && i < |states|
    requires forall k :: 0 <= k < |states| - 1 ==> OffGaps(states[k], states[k + 1])
    ensures Inv(states[i])
    ensures LevelsOk(states[i].version)
    ensures SameViews(Store(states[i].version), states[i].history, states[i].horizon)
  {
    if i == 0 {
      InitIsSound(states[0]);
    } else {
      RunIsSound(states, i - 1);
      assert Next(states[i - 1], states[i - 1 + 1]) && OffGaps(states[i - 1], states[i - 1 + 1]);
      NextKeepsInv(states[i - 1], states[i]);
    }
  }

  ghost predicate JobConnected(s: State) {
    s.job.Some? ==> Connected(s.job.value.in0 + s.job.value.in1)
  }

  /** Every state of every run whose compactions were picked: nothing is asked
      of the flushes. */
  lemma {:induction false} PickedRunIsSound(states: seq<State>, i: nat)
    requires IsRun(states) && i < |states| && forall k :: 0 <= k < |states| ==> JobConnected(states[k])
    ensures Inv(states[i])
    ensures LevelsOk(states[i].version)
    ensures SameViews(Store(states[i].version), states[i].history, states[i].horizon)
  {
    if i == 0 {
      InitIsSound(states[0]);
    } else {
      PickedRunIsSound(states, i - 1);
      var s, s' := states[i - 1], states[i];
      assert Next(s, states[i - 1 + 1]) && JobConnected(s);
      forall f, level | Flush(s, s', f, level) ensures !LandsInGap(s, f, level) {
        if s.job.Some? {
          ConnectedHasNoGap(s, s', f, level);
        }
      }
      NextKeepsInv(s, s');
    }
  }

  // ----------------------------------------------------------- the gap, exactly

  /** The files of level l once outputs have taken the place of inputs. */
  ghost function LevelAfter(v: Version, j: Job, outputs: seq<File>, l: nat): set<File>
    requires l < |v|
  {
    (set f | f in v[l] && Stays(v, j.level, j.in0, j.in1, l, f)) + if l == j.level + 1 then SetOfFiles(outputs) else {}
  }

  ghost function VersionAfter(v: Version, j: Job, outputs: seq<File>): Version
    requires |v| == NUM_LEVELS
  {
    seq(NUM_LEVELS, l requires 0 <= l < NUM_LEVELS => Ordered(LevelAfter(v, j, outputs, l)))
  }

  lemma VersionAfterIs(v: Version, j: Job, o: File)
    requires FilesOk(v) && j.level + 1 < NUM_LEVELS
    requires forall l, f: File {:trigger f in v[l]} :: 0 <= l < NUM_LEVELS && f in v[l] ==> f.number != o.number
    ensures Replaced(v, j.level, j.in0, j.in1, [o], VersionAfter(v, j, [o]))
  {
    forall l | 0 <= l < NUM_LEVELS
      ensures InOrder(Ordered(LevelAfter(v, j, [o], l)))
      ensures forall f :: f in Ordered(LevelAfter(v, j, [o], l)) <==> f in LevelAfter(v, j, [o], l)
    {
      OrderedIs(LevelAfter(v, j, [o], l));
    }
  }

  /** All that is kept, in one file. */
  ghost function OneOutput(kept: seq<Entry>, number: nat): File
    requires kept != []
  {
    File(number, 0, kept[0].key, kept[|kept| - 1].key, kept)
  }

  ghost function Finished(s: State, o: File): State
    requires s.job.Some? && |s.version| == NUM_LEVELS
  {
    s.(version := VersionAfter(s.version, s.job.value, [o]), nextFile := o.number + 1,
       horizon := Max(s.horizon, s.job.value.snapshot), job := None)
  }

  lemma CanFinish(s: State, merged: seq<Entry>) returns (o: File)
    requires StoreInv(s) && s.job.Some? && IsMerged(s.job.value, merged) && KeptOf(s.job.value, merged) != []
    requires s.nextFile < ABOVE_ALL_FILES
    ensures o == OneOutput(KeptOf(s.job.value, merged), s.nextFile) && Finish(s, Finished(s, o), merged, [o])
  {
    var j := s.job.value;
    o := OneOutput(KeptOf(j, merged), s.nextFile);
    assert Flatten([o]) == o.entries;
    VersionAfterIs(s.version, j, o);
  }

  lemma OneOutputSpans(j: Job, g: File, merged: seq<Entry>, a: Entry, b: Entry, number: nat)
    requires StraddledBy(j, g, merged, a, b)
    ensures KeptOf(j, merged) != [] && Spans(OneOutput(KeptOf(j, merged), number), g)
  {
    KeptSorted(merged, j.snapshot, j.base, j.level, |merged|);
    EndsAround(KeptOf(j, merged), a);
    EndsAround(KeptOf(j, merged), b);
  }

  /** A straddled file ends up inside an output if all that is kept goes to one
      file. */
  lemma GapBreaks(s: State, g: File, merged: seq<Entry>, a: Entry, b: Entry) returns (o: File, s': State)
    requires StoreInv(s) && s.job.Some? && s.nextFile < ABOVE_ALL_FILES && StraddledBy(s.job.value, g, merged, a, b)
    requires g in s.version[s.job.value.level + 1] && g !in s.job.value.in1
    ensures Finish(s, s', merged, [o]) && !LevelsOk(s'.version)
  {
    OneOutputSpans(s.job.value, g, merged, a, b, s.nextFile);
    o := CanFinish(s, merged);
    s' := Finished(s, o);
    SpanBreaksFinish(s, s', merged, o, g);
  }

  lemma SpanBreaksFinish(s: State, s': State, merged: seq<Entry>, o: File, g: File)
    requires StoreInv(s) && Finish(s, s', merged, [o]) && Spans(o, g)
    requires g in s.version[s.job.value.level + 1] && g !in s.job.value.in1
    ensures !LevelsOk(s'.version)
  {
    var j := s.job.value;
    FinishedOutputsFit(s, s', merged, [o]);
    assert o in [o];
    ReplaceIff(s.version, j.level, j.in0, j.in1, [o], s'.version);
  }

  lemma EndsAround(kept: seq<Entry>, e: Entry)
    requires Sorted(kept) && e in kept
    ensures AtMost(kept[0].key, e.key) && AtMost(e.key, kept[|kept| - 1].key)
  {
    var i :| 0 <= i < |kept| && kept[i] == e;
    assert i > 0 ==> Less(kept[0].key, kept[i].key);
    assert i < |kept| - 1 ==> Less(kept[i].key, kept[|kept| - 1].key);
  }

  /** After a flush in the middle of a compaction, every way of finishing it
      keeps the levels if and only if the flush did not land in a gap. */
  lemma FlushIff(s: State, s': State, f: File, level: nat)
    requires Inv(s) && Flush(s, s', f, level) && s.job.Some? && s'.nextFile < ABOVE_ALL_FILES
    ensures (forall s'', merged, outputs :: Finish(s', s'', merged, outputs) ==> LevelsOk(s''.version)) <==>
            !LandsInGap(s, f, level)
  {
    FlushKeepsStore(s, s', f, level);
    if LandsInGap(s, f, level) {
      var merged, a, b :| StraddledBy(s.job.value, f, merged, a, b);
      assert f in s'.version[level];
      FlushedIsNoInput(s, s', f, level);
      var o, s'' := GapBreaks(s', f, merged, a, b);
    } else {
      FlushKeepsInv(s, s', f, level);
      forall s'', merged, outputs | Finish(s', s'', merged, outputs) ensures LevelsOk(s''.version) {
        FinishKeepsLevels(s', s'', merged, outputs);
      }
    }
  }

  lemma FlushedIsNoInput(s: State, s': State, f: File, level: nat)
    requires StoreInv(s) && Flush(s, s', f, level) && s.job.Some?
    ensures f !in s.job.value.in1
  {
    var j := s.job.value;
    assert forall g :: g in j.in1 ==> g in s.version[j.level + 1] && g.number < s.nextFile;
  }
}
