/** The manifest of a run.

    Every step of a run that changes the version is logged as one edit.  The
    steps are exactly what a builder does with those edits (`ReplaceEditIff`,
    `AddEditIff`), a run never adds a file number to a level twice, and so
    recovery from a snapshot taken at any point of the run, plus the edits
    logged since, rebuilds the version the run had reached
    (`RunReplays`). */
module ManifestRuns {
  import opened Entries
  import opened Levels
  import opened VersionBuilder
  import opened LevelReplace
  import opened LevelRuns

  // ------------------------------------------------------------------ edits

  ghost function AddEdit(level: nat, f: File): Edit {
    Edit(PLAIN, {}, [(level, f)])
  }

  ghost function NumbersAt(level: nat, files: seq<File>): set<(nat, nat)> {
    set f | f in files :: (level, f.number)
  }

  ghost function AtLevel(level: nat, files: seq<File>): seq<(nat, File)> {
    seq(|files|, i requires 0 <= i < |files| => (level, files[i]))
  }

  /** add_input_deletions and the added outputs. */
  ghost function ReplaceEdit(level: nat, in0: seq<File>, in1: seq<File>, outputs: seq<File>): Edit {
    Edit(PLAIN, NumbersAt(level, in0) + NumbersAt(level + 1, in1), AtLevel(level + 1, outputs))
  }

  lemma FilesAtLevel(level: nat, files: seq<File>, l: nat)
    ensures FilesAt(AtLevel(level, files), l) == if l == level then SetOfFiles(files) else {}
  {
    var added := AtLevel(level, files);
    forall f ensures f in FilesAt(added, l) <==> l == level && f in files {
      if f in files && l == level {
        var i :| 0 <= i < |files| && files[i] == f;
        assert added[i] in added;
      }
    }
  }

  lemma DeletedByReplace(level: nat, in0: seq<File>, in1: seq<File>, outputs: seq<File>, l: nat, n: nat)
    ensures n in DeletedAt(ReplaceEdit(level, in0, in1, outputs), l) <==>
            (l == level && exists f :: f in in0 && f.number == n) ||
                (l == level + 1 && exists f :: f in in1 && f.number == n)
  {
    var edit := ReplaceEdit(level, in0, in1, outputs);
    if f :| f in in0 && f.number == n && l == level {
      assert (level, n) in edit.deleted;
    }
    if f :| f in in1 && f.number == n && l == level + 1 {
      assert (level + 1, n) in edit.deleted;
    }
  }

  /** What the builder saves for a replacing edit, level by level. */
  lemma ReplaceSaves(v: Version, level: nat, in0: seq<File>, in1: seq<File>, outputs: seq<File>, l: nat, f: File)
    requires FilesOk(v) && GapInputsOk(v, level, in0, in1) && OutputsFit(v, level, in0, in1, outputs)
    requires forall o, g :: o in outputs && g in in1 ==> o.number != g.number
    requires l < NUM_LEVELS
    ensures Saves(v[l], ApplyAt(Pending({}, {}), ReplaceEdit(level, in0, in1, outputs), l), f) <==>
            Stays(v, level, in0, in1, l, f) || (l == level + 1 && f in outputs)
  {
    FilesAtLevel(level + 1, outputs, l);
    DeletedByReplace(level, in0, in1, outputs, l, f.number);
    var numbers := Numbers(SetOfFiles(outputs));
    if l == level + 1 {
      assert f in outputs ==> f in SetOfFiles(outputs) && f.number in numbers;
    }
  }

  lemma ReplaceLevelIff(v: Version, level: nat, in0: seq<File>, in1: seq<File>, outputs: seq<File>, files: seq<File>,
                        l: nat)
    requires FilesOk(v) && GapInputsOk(v, level, in0, in1) && OutputsFit(v, level, in0, in1, outputs)
    requires forall o, g :: o in outputs && g in in1 ==> o.number != g.number
    requires l < NUM_LEVELS
    ensures IsSaved(v[l], ApplyAt(Pending({}, {}), ReplaceEdit(level, in0, in1, outputs), l), files) <==>
            InOrder(files) && forall f :: f in files <==>
                Stays(v, level, in0, in1, l, f) || (l == level + 1 && f in outputs)
  {
    forall f
      ensures Saves(v[l], ApplyAt(Pending({}, {}), ReplaceEdit(level, in0, in1, outputs), l), f) <==>
              Stays(v, level, in0, in1, l, f) || (l == level + 1 && f in outputs)
    {
      ReplaceSaves(v, level, in0, in1, outputs, l, f);
    }
  }

  /** Installing the edit of a compaction is replacing its inputs. */
  lemma ReplaceEditIff(v: Version, level: nat, in0: seq<File>, in1: seq<File>, outputs: seq<File>, v': Version)
    requires FilesOk(v) && GapInputsOk(v, level, in0, in1) && OutputsFit(v, level, in0, in1, outputs)
    requires forall o, g :: o in outputs && g in in1 ==> o.number != g.number
    ensures Installed(v, ReplaceEdit(level, in0, in1, outputs), v') <==> Replaced(v, level, in0, in1, outputs, v')
  {
    if |v'| == NUM_LEVELS {
      forall l | 0 <= l < NUM_LEVELS
        ensures IsSaved(v[l], ApplyAt(Pending({}, {}), ReplaceEdit(level, in0, in1, outputs), l), v'[l]) <==>
                LevelReplaced(v, level, in0, in1, outputs, l, v'[l])
      {
        ReplaceLevelIff(v, level, in0, in1, outputs, v'[l], l);
      }
      ReplacedByLevel(v, level, in0, in1, outputs, v');
    }
  }

  ghost predicate LevelReplaced(v: Version, level: nat, in0: seq<File>, in1: seq<File>, outputs: seq<File>, l: nat,
                                files: seq<File>)
    requires l < |v|
  {
    InOrder(files) && forall f :: f in files <==> Stays(v, level, in0, in1, l, f) || (l == level + 1 && f in outputs)
  }

  lemma ReplacedByLevel(v: Version, level: nat, in0: seq<File>, in1: seq<File>, outputs: seq<File>, v': Version)
    requires |v| == |v'| == NUM_LEVELS && level + 1 < NUM_LEVELS
    ensures Replaced(v, level, in0, in1, outputs, v') <==>
            forall l :: 0 <= l < NUM_LEVELS ==> LevelReplaced(v, level, in0, in1, outputs, l, v'[l])
  {
    if forall l :: 0 <= l < NUM_LEVELS ==> LevelReplaced(v, level, in0, in1, outputs, l, v'[l]) {
      forall l, f | 0 <= l < NUM_LEVELS
        ensures f in v'[l] <==> Stays(v, level, in0, in1, l, f) || (l == level + 1 && f in outputs)
      {
        assert LevelReplaced(v, level, in0, in1, outputs, l, v'[l]);
      }
    }
  }

  lemma AddEditIff(v: Version, level: nat, f: File, v': Version)
    requires |v| == NUM_LEVELS && level < NUM_LEVELS
    ensures Installed(v, AddEdit(level, f), v') <==> FileAdded(v, level, f, v')
  {
    forall l ensures FilesAt([(level, f)], l) == if l == level then {f} else {} {
      assert (level, f) in [(level, f)];
    }
    forall l ensures DeletedAt(AddEdit(level, f), l) == {} {
    }
  }

  lemma EmptyEditIff(v: Version)
    requires |v| == NUM_LEVELS && forall l :: 0 <= l < NUM_LEVELS ==> InOrder(v[l])
    ensures Installed(v, Edit(PLAIN, {}, []), v)
  {
    forall l ensures FilesAt([], l) == {} && DeletedAt(Edit(PLAIN, {}, []), l) == {} {
    }
  }

  // ------------------------------------------------------------ logged steps

  /** The file part of the edit a step logs; empty for steps that log nothing. */
  ghost predicate Logged(s: State, s': State, edit: Edit) {
    || (exists f, level :: Flush(s, s', f, level) && edit == AddEdit(level, f))
    || (exists level, f :: TrivialMove(s, s', level, f) && edit == ReplaceEdit(level, [f], [], [f]))
    || (exists merged, outputs :: Finish(s, s', merged, outputs) &&
          edit == ReplaceEdit(s.job.value.level, s.job.value.in0, s.job.value.in1, outputs))
    || (s'.version == s.version && s'.nextFile == s.nextFile && Next(s, s') && edit == Edit(PLAIN, {}, []))
  }

  /** A number added to a level is used up, and a file that still carries it
      sits at that level or deeper. */
  ghost predicate Track(s: State, level: nat, added: set<File>) {
    forall g :: g in added ==> Tracked(s, level, g.number)
  }

  ghost predicate Tracked(s: State, level: nat, number: nat) {
    && number < s.nextFile
    && forall m, h {:trigger h in s.version[m]} :: 0 <= m < |s.version| && h in s.version[m] && h.number == number ==>
        level <= m
  }

  lemma FlushIsLogged(s: State, s': State, f: File, level: nat, l: nat, added: set<File>)
    requires Inv(s) && Flush(s, s', f, level) && Track(s, l, added)
    ensures Installed(s.version, AddEdit(level, f), s'.version)
    ensures NewTo(AddEdit(level, f), l, Numbers(added))
    ensures Track(s', l, added + FilesAt(AddEdit(level, f).added, l))
  {
    AddEditIff(s.version, level, f, s'.version);
    forall g | g in added ensures Tracked(s', l, g.number) {
      assert Tracked(s, l, g.number);
    }
    if l == level {
      assert Tracked(s', l, f.number);
    }
  }

  lemma MoveIsLogged(s: State, s': State, level: nat, f: File, l: nat, added: set<File>)
    requires Inv(s) && TrivialMove(s, s', level, f) && Track(s, l, added)
    ensures Installed(s.version, ReplaceEdit(level, [f], [], [f]), s'.version)
    ensures NewTo(ReplaceEdit(level, [f], [], [f]), l, Numbers(added))
    ensures Track(s', l, added + FilesAt(ReplaceEdit(level, [f], [], [f]).added, l))
  {
    InputsOkAllowsGaps(s.version, level, [f], []);
    MoveFits(s.version, level, f);
    ReplaceEditIff(s.version, level, [f], [], [f], s'.version);
    FilesAtLevel(level + 1, [f], l);
    assert f in [f];
    forall g | g in added ensures Tracked(s', l, g.number) && (l == level + 1 ==> g.number != f.number) {
      assert Tracked(s, l, g.number) && f in s.version[level];
    }
    if l == level + 1 {
      assert Tracked(s', l, f.number);
    }
  }

  lemma FinishIsLogged(s: State, s': State, merged: seq<Entry>, outputs: seq<File>, l: nat, added: set<File>)
    requires Inv(s) && Finish(s, s', merged, outputs) && Track(s, l, added)
    ensures var edit := ReplaceEdit(s.job.value.level, s.job.value.in0, s.job.value.in1, outputs);
            && Installed(s.version, edit, s'.version)
            && NewTo(edit, l, Numbers(added))
            && Track(s', l, added + FilesAt(edit.added, l))
  {
    var j := s.job.value;
    FinishedOutputsFit(s, s', merged, outputs);
    ReplaceEditIff(s.version, j.level, j.in0, j.in1, outputs, s'.version);
    FilesAtLevel(j.level + 1, outputs, l);
    FinishTracks(s, s', merged, outputs, l, added);
  }

  lemma FinishTracks(s: State, s': State, merged: seq<Entry>, outputs: seq<File>, l: nat, added: set<File>)
    requires Inv(s) && Finish(s, s', merged, outputs) && Track(s, l, added)
    ensures Track(s', l, added)
    ensures l == s.job.value.level + 1 ==> forall o :: o in outputs ==> Tracked(s', l, o.number)
  {
    forall g | g in added ensures Tracked(s', l, g.number) {
      assert Tracked(s, l, g.number);
    }
  }

  lemma StepIsLogged(s: State, s': State, edit: Edit, l: nat, added: set<File>)
    requires Inv(s) && Logged(s, s', edit) && Track(s, l, added)
    requires forall m :: 0 <= m < NUM_LEVELS ==> InOrder(s.version[m])
    ensures Next(s, s')
    ensures Installed(s.version, edit, s'.version)
    ensures NewTo(edit, l, Numbers(added))
    ensures Track(s', l, added + FilesAt(edit.added, l))
  {
    if f, level :| Flush(s, s', f, level) && edit == AddEdit(level, f) {
      FlushIsLogged(s, s', f, level, l, added);
    } else if level, f :| TrivialMove(s, s', level, f) && edit == ReplaceEdit(level, [f], [], [f]) {
      MoveIsLogged(s, s', level, f, l, added);
    } else if merged, outputs :|
      Finish(s, s', merged, outputs) && edit == ReplaceEdit(s.job.value.level, s.job.value.in0, s.job.value.in1,
          outputs)
    {
      FinishIsLogged(s, s', merged, outputs, l, added);
    } else {
      EmptyEditIff(s.version);
      assert FilesAt([], l) == {};
      forall g | g in added ensures Tracked(s', l, g.number) {
        assert Tracked(s, l, g.number);
      }
    }
  }

  // -------------------------------------------------------------- the replay

  /** A stretch of a run with the edits it logged: states[0] is where the
      snapshot was written. */
  ghost predicate LoggedRun(states: seq<State>, edits: seq<Edit>) {
    && |states| == |edits| + 1
    && Inv(states[0]) && (forall l :: 0 <= l < NUM_LEVELS ==> InOrder(states[0].version[l]))
    && (forall i :: 0 <= i < |edits| ==> Logged(states[i], states[i + 1], edits[i]))
    && forall i :: 0 <= i < |edits| ==> OffGaps(states[i], states[i + 1])
  }

  lemma {:induction false} LoggedRunAt(states: seq<State>, snapshot: Edit, edits: seq<Edit>, l: nat, n: nat)
    requires LoggedRun(states, edits) && IsSnapshot(snapshot, states[0].version)
    requires l < NUM_LEVELS && n <= |edits|
    ensures Inv(states[n]) && (forall m :: 0 <= m < NUM_LEVELS ==> InOrder(states[n].version[m]))
    ensures Track(states[n], l, ReplayAt(snapshot, edits, l, n).added)
    ensures n < |edits| ==> NewTo(edits[n], l, Numbers(ReplayAt(snapshot, edits, l, n).added))
    ensures n < |edits| ==> Installed(states[n].version, edits[n], states[n + 1].version)
  {
    if n == 0 {
      SnapshotIsTracked(states[0], snapshot, l);
    } else {
      LoggedRunAt(states, snapshot, edits, l, n - 1);
      StepIsLogged(states[n - 1], states[n], edits[n - 1], l, ReplayAt(snapshot, edits, l, n - 1).added);
      assert OffGaps(states[n - 1], states[n - 1 + 1]);
      NextKeepsInv(states[n - 1], states[n]);
    }
    if n < |edits| {
      StepIsLogged(states[n], states[n + 1], edits[n], l, ReplayAt(snapshot, edits, l, n).added);
    }
  }

  lemma SnapshotIsTracked(s: State, snapshot: Edit, l: nat)
    requires Inv(s) && IsSnapshot(snapshot, s.version) && l < NUM_LEVELS
    ensures Track(s, l, ApplyAt(Pending({}, {}), snapshot, l).added)
  {
    forall g | g in s.version[l] ensures Tracked(s, l, g.number) {
    }
  }

  ghost function Versions(states: seq<State>): seq<Version> {
    seq(|states|, i requires 0 <= i < |states| => states[i].version)
  }

  lemma InstalledIsHistory(states: seq<State>, edits: seq<Edit>)
    requires |states| == |edits| + 1
    requires forall l :: 0 <= l < NUM_LEVELS == |states[0].version| ==> InOrder(states[0].version[l])
    requires forall i :: 0 <= i < |edits| ==> Installed(states[i].version, edits[i], states[i + 1].version)
    ensures IsHistory(Versions(states), edits)
  {
  }

  lemma RunIsHistory(states: seq<State>, snapshot: Edit, edits: seq<Edit>)
    requires LoggedRun(states, edits) && IsSnapshot(snapshot, states[0].version)
    ensures IsHistory(Versions(states), edits)
  {
    forall i | 0 <= i < |edits| ensures Installed(states[i].version, edits[i], states[i + 1].version) {
      LoggedRunAt(states, snapshot, edits, 0, i);
    }
    InstalledIsHistory(states, edits);
  }

  lemma RunNeverReadds(states: seq<State>, snapshot: Edit, edits: seq<Edit>)
    requires LoggedRun(states, edits) && IsSnapshot(snapshot, states[0].version)
    ensures NeverReadded(snapshot, edits)
  {
    forall n, l | 0 <= n < |edits| && 0 <= l < NUM_LEVELS
      ensures NewTo(edits[n], l, Numbers(ReplayAt(snapshot, edits, l, n).added))
    {
      LoggedRunAt(states, snapshot, edits, l, n);
    }
  }

  /** Recovery from a snapshot and the edits logged since rebuilds the version
      the run had reached. */
  lemma RunReplays(states: seq<State>, snapshot: Edit, edits: seq<Edit>, recovered: Version)
    requires LoggedRun(states, edits) && IsSnapshot(snapshot, states[0].version)
    requires |recovered| == NUM_LEVELS
    requires forall l :: 0 <= l < NUM_LEVELS ==> IsSaved([], ReplayAt(snapshot, edits, l, |edits|), recovered[l])
    ensures recovered == states[|edits|].version
    ensures LevelsOk(recovered)
  {
    RunIsHistory(states, snapshot, edits);
    RunNeverReadds(states, snapshot, edits);
    ReplayAgrees(Versions(states), snapshot, edits, recovered);
    LoggedRunAt(states, snapshot, edits, 0, |edits|);
  }
}
