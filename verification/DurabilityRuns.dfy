/** The durability contract over whole runs, crashes and reopenings included. */
module DurabilityRuns {
  import opened Entries
  import opened Disks
  import opened Durability
  import opened DurabilityProofs

  /** A database just made: a manifest with no tables, and CURRENT naming it. */
  ghost function Made(): State {
    State(
      Disk(map[1 := File(ManifestFile, [Change(Edit({}, {}, Some(0), Some(0)))], 1, None),
          2 := File(TempFile, [Names(1)], 1, None)],
           Dir({1}, Some(2)), []),
      Down, [], 0)
  }

  lemma MadeInv()
    ensures Inv(Made())
  {
    var d := Made().disk;
    assert Leads(d, 1);
    var data := d.files[1].data;
    assert data[..0] == [];
    assert Replayed(data) == Version({}, Some(0), 0);
    assert Logs(d, 0) == {} && TableBatches(d.files, {}) == {} && LogBatches(d.files, {}) == {};
    assert Contents(d, Version({}, Some(0), 0)) == {} == Among([]);
    assert Recovers(d, 1, Among([]));
  }

  lemma UpStep(s: State, step: Step)
    requires s.phase.Up? && Inv(s) && Enabled(s, step) && !step.Crash?
    ensures Inv(Took(s, step))
  {
    match step
    case Write(b) =>
      UpWrite(s, b);
      NextInSequence(s.history, b, s.phase.last);
    case SyncLog => UpSyncLog(s);
    case NewTable(_, _) => UpQuietStep(s, step);
    case NewLog(_) => UpQuietStep(s, step);
    case SyncOne(_) => UpQuietStep(s, step);
    case SyncNames => UpQuietStep(s, step);
    case Rotate(_) => UpQuietStep(s, step);
    case Plan(_) => UpQuietStep(s, step);
    case LogEdit => UpQuietStep(s, step);
    case Install => UpQuietStep(s, step);
    case Remove(_) => UpQuietStep(s, step);
  }

  /** Steps that leave the history alone. */
  lemma UpQuietStep(s: State, step: Step)
    requires s.phase.Up? && UpInv(s) && Enabled(s, step) && !step.Crash? && !step.Write? && !step.SyncLog?
    ensures Took(s, step).phase.Up? && UpInv(Took(s, step))
    ensures Took(s, step).history == s.history && Took(s, step).synced == s.synced
  {
    match step
    case NewTable(id, rows) => UpCreate(s, id, TableFile, [Rows(rows)]);
    case NewLog(id) => UpCreate(s, id, LogFile, []);
    case SyncOne(id) => UpSyncOne(s, id);
    case SyncNames => UpSyncNames(s);
    case Rotate(id) => UpRotate(s, id);
    case Plan(e) => UpPlan(s, e);
    case LogEdit => UpLogEdit(s);
    case Install => UpInstall(s);
    case Remove(id) => UpRemove(s, id);
  }

  lemma OpeningStep(s: State, step: Step)
    requires s.phase.Opening? && Inv(s) && Enabled(s, step) && !step.Crash?
    ensures Inv(Took(s, step))
  {
    match step
    case NewTable(id, rows) => OpeningCreate(s, id, TableFile, [Rows(rows)]);
    case NewLog(id) => OpeningCreate(s, id, LogFile, []);
    case SyncOne(id) => OpeningSyncOne(s, id);
    case SyncNames => OpeningSyncNames(s);
    case WriteManifest(id, added, log) => OpeningWriteManifest(s, id, added, log);
    case NewTemp(id) => OpeningCreate(s, id, TempFile, [Names(s.phase.target.value.manifest)]);
    case Switch(id) => OpeningSwitch(s, id);
    case Finish => OpeningFinish(s);
  }

  lemma StepKeepsInv(s: State, step: Step)
    requires Inv(s) && Enabled(s, step)
    ensures Inv(Took(s, step))
  {
    if step.Crash? {
      CrashIsSafe(s, step.after);
    } else if s.phase.Up? {
      UpStep(s, step);
    } else if s.phase.Opening? {
      OpeningStep(s, step);
    } else {
      DownBegin(s, step.pointer, step.manifest);
    }
  }

  /** No step loses a batch acknowledged with sync, or reorders the history; a
      sync acknowledges all of it. */
  lemma StepKeepsSynced(s: State, step: Step)
    requires Inv(s) && Enabled(s, step)
    ensures var t := Took(s, step);
            s.synced <= t.synced <= |t.history| && t.history[..s.synced] == s.history[..s.synced]
    ensures step.SyncLog? ==> Took(s, step).history == s.history && Took(s, step).synced == |s.history|
  {
    if step.Crash? {
      CrashIsSafe(s, step.after);
    } else {
      StepExtends(s, step);
    }
  }

  lemma StepExtends(s: State, step: Step)
    requires Enabled(s, step) && !step.Crash? && s.synced <= |s.history|
    ensures var t := Took(s, step); s.history <= t.history && s.synced <= t.synced <= |t.history|
  {
  }

  ghost predicate IsRun(states: seq<State>, steps: seq<Step>) {
    && |states| == |steps| + 1 && states[0] == Made()
    && forall i :: 0 <= i < |steps| ==> Steps(states[i], steps[i], states[i + 1])
  }

  ghost predicate Steps(s: State, step: Step, t: State) {
    Enabled(s, step) && t == Took(s, step)
  }

  lemma {:induction false} RunKeepsInv(states: seq<State>, steps: seq<Step>, i: nat)
    requires IsRun(states, steps) && i < |states|
    ensures Inv(states[i])
  {
    if i == 0 {
      MadeInv();
    } else {
      RunKeepsInv(states, steps, i - 1);
      assert Steps(states[i - 1], steps[i - 1], states[i - 1 + 1]);
      StepKeepsInv(states[i - 1], steps[i - 1]);
    }
  }

  lemma RunStep(states: seq<State>, steps: seq<Step>, i: nat)
    requires IsRun(states, steps) && i < |steps|
    ensures states[i].synced <= states[i + 1].synced <= |states[i + 1].history|
    ensures states[i].synced <= |states[i].history|
    ensures states[i + 1].history[..states[i].synced] == states[i].history[..states[i].synced]
  {
    RunKeepsInv(states, steps, i);
    assert Steps(states[i], steps[i], states[i + 1]);
    StepKeepsSynced(states[i], steps[i]);
  }

  lemma PrefixOfPrefix(a: seq<Batch>, b: seq<Batch>, n: nat, m: nat)
    requires n <= m <= |a| && m <= |b| && a[..m] == b[..m]
    ensures a[..n] == b[..n]
  {
    assert a[..n] == a[..m][..n] && b[..n] == b[..m][..n];
  }

  lemma {:induction false} RunKeepsSynced(states: seq<State>, steps: seq<Step>, i: nat, j: nat)
    requires IsRun(states, steps) && i <= j < |states|
    ensures states[i].synced <= states[j].synced <= |states[j].history| && states[i].synced <= |states[i].history|
    ensures states[j].history[..states[i].synced] == states[i].history[..states[i].synced]
    decreases j - i
  {
    if i < j {
      RunKeepsSynced(states, steps, i, j - 1);
      RunStep(states, steps, j - 1);
      PrefixOfPrefix(states[j].history, states[j - 1].history, states[i].synced, states[j - 1].synced);
    } else {
      RunKeepsInv(states, steps, i);
    }
  }

  lemma FirstOfNumbered(a: seq<Batch>, b: seq<Batch>)
    requires InSequence(a) && InSequence(b) && Among(a) == Among(b) && a != []
    ensures b != [] && a[0] == b[0]
  {
    assert a[0] in Among(a);
    var i :| 0 <= i < |b| && b[i] == a[0];
    assert b[0] in Among(b);
    var j :| 0 <= j < |a| && a[j] == b[0];
    FirstIsLeast(b, i);
    FirstIsLeast(a, j);
  }

  lemma FirstIsLeast(h: seq<Batch>, i: nat)
    requires InSequence(h) && i < |h|
    ensures h[i] == h[0] || h[0].first < h[i].first
  {
  }

  /** A set of batches has one order by number. */
  lemma {:induction false} OneOrder(a: seq<Batch>, b: seq<Batch>)
    requires InSequence(a) && InSequence(b) && Among(a) == Among(b)
    ensures a == b
  {
    SomeAmong(b);
    if a != [] {
      FirstOfNumbered(a, b);
      forall x ensures x in Among(a[1..]) <==> x in Among(b[1..]) {
        RestOf(a, x);
        RestOf(b, x);
      }
      OneOrder(a[1..], b[1..]);
      assert a == [a[0]] + a[1..] && b == [b[0]] + b[1..];
    }
  }

  lemma SomeAmong(h: seq<Batch>)
    ensures h != [] ==> h[0] in Among(h)
  {
  }

  lemma RestOf(h: seq<Batch>, x: Batch)
    requires InSequence(h) && h != []
    ensures x in Among(h[1..]) <==> x in Among(h) && x != h[0]
  {
    if x in h && x != h[0] {
      var i :| 0 <= i < |h| && h[i] == x;
      assert h[1..][i - 1] == x;
    }
    if x in h[1..] {
      var i :| 0 <= i < |h| - 1 && h[1..][i] == x;
      assert h[i + 1] == x && End(h[0]) <= h[i + 1].first;
    }
  }

  /** Cut the power at any point of any run: what recovery finds, in the order
      of its sequence numbers, is a prefix of the history; every batch that was
      ever acknowledged with sync is in it where it was when it was
      acknowledged; and the numbers recovery goes on with are above all of it. */
  lemma RunIsDurable(states: seq<State>, steps: seq<Step>, i: nat, j: nat, after: Disk) returns (k: nat)
    requires IsRun(states, steps) && i <= j < |states| && IsCrash(states[j].disk, after)
    ensures states[i].synced <= k <= |states[j].history| && Recovered(after).Some?
    ensures InSequence(states[j].history[..k]) && Among(states[j].history[..k]) == Recovered(after).value.batches
    ensures forall h :: InSequence(h) && Among(h) == Recovered(after).value.batches ==> h == states[j].history[..k]
    ensures Bounded(Recovered(after).value.batches, Recovered(after).value.last)
    ensures states[i].synced <= |states[i].history|
    ensures states[j].history[..k][..states[i].synced] == states[i].history[..states[i].synced]
  {
    RunKeepsInv(states, steps, j);
    RunKeepsSynced(states, steps, i, j);
    CrashIsSafe(states[j], after);
    var kept := Took(states[j], Crash(after)).history;
    k := |kept|;
    assert kept == states[j].history[..k];
    forall h | InSequence(h) && Among(h) == Recovered(after).value.batches ensures h == kept {
      OneOrder(h, kept);
    }
    assert states[j].history[..k][..states[i].synced] == states[j].history[..states[i].synced];
  }

  // ---------------------------------------- in terms of what callers asked for

  lemma SyncCounts(s: State, t: State)
    requires Steps(s, SyncLog, t)
    ensures t.history == s.history && t.synced == |s.history|
  {
  }

  /** What had been written when a sync returned is found after every later cut,
      in the order it was written. */
  lemma SyncedSurvives(states: seq<State>, steps: seq<Step>, i: nat, j: nat, after: Disk)
    requires IsRun(states, steps) && i < j < |states| && steps[i].SyncLog? && IsCrash(states[j].disk, after)
    ensures Recovered(after).Some? && Among(states[i].history) <= Recovered(after).value.batches
    ensures forall h :: InSequence(h) && Among(h) == Recovered(after).value.batches ==> states[i].history <= h
  {
    assert Steps(states[i], steps[i], states[i + 1]);
    SyncCounts(states[i], states[i + 1]);
    var k := RunIsDurable(states, steps, i + 1, j, after);
    var kept := states[j].history[..k];
    assert states[i].history == kept[..|states[i].history|];
    forall b | b in states[i].history ensures b in kept {
      var n :| 0 <= n < |states[i].history| && states[i].history[n] == b;
      assert kept[n] == b;
    }
  }

  lemma WroteIt(s: State, b: Batch, t: State)
    requires Steps(s, Write(b), t)
    ensures b in t.history
  {
    assert t.history[|s.history|] == b;
  }

  lemma NextHolds(s: State, step: Step, t: State, b: Batch)
    requires Inv(s) && Steps(s, step, t) && !step.Crash? && b in s.history
    ensures b in t.history
  {
    StepExtends(s, step);
  }

  lemma StaysOneStep(states: seq<State>, steps: seq<Step>, i: nat, b: Batch)
    requires IsRun(states, steps) && i < |steps| && !steps[i].Crash? && b in states[i].history
    ensures b in states[i + 1].history
  {
    RunKeepsInv(states, steps, i);
    assert Steps(states[i], steps[i], states[i + 1]);
    NextHolds(states[i], steps[i], states[i + 1], b);
  }

  ghost predicate NoCut(steps: seq<Step>, w: nat, i: nat) {
    forall n :: w <= n < i && n < |steps| ==> !steps[n].Crash?
  }

  lemma {:induction false} StaysWritten(states: seq<State>, steps: seq<Step>, w: nat, i: nat, b: Batch)
    requires IsRun(states, steps) && w <= i < |states| && b in states[w].history && NoCut(steps, w, i)
    ensures b in states[i].history
    decreases i
  {
    if w < i {
      StaysWritten(states, steps, w, i - 1, b);
      StaysOneStep(states, steps, i - 1, b);
    }
  }

  /** A write acknowledged with sync is never lost: written, then synced before
      any cut, it is found after every later cut, however many come between. */
  lemma AcknowledgedSurvives(states: seq<State>, steps: seq<Step>, w: nat, i: nat, j: nat, b: Batch, after: Disk)
    requires IsRun(states, steps) && w < i < j < |states| && IsCrash(states[j].disk, after)
    requires steps[w] == Write(b) && steps[i].SyncLog? && NoCut(steps, w, i)
    ensures Recovered(after).Some? && b in Recovered(after).value.batches
  {
    assert Steps(states[w], steps[w], states[w + 1]);
    WroteIt(states[w], b, states[w + 1]);
    StaysWritten(states, steps, w + 1, i, b);
    SyncedSurvives(states, steps, i, j, after);
  }

  lemma OnlyWriteAdds(s: State, step: Step, t: State, b: Batch)
    requires Steps(s, step, t) && b in t.history && b !in s.history
    ensures step == Write(b)
  {
  }

  lemma {:induction false} WrittenSomewhere(states: seq<State>, steps: seq<Step>, j: nat, b: Batch) returns (w: nat)
    requires IsRun(states, steps) && j < |states| && b in states[j].history
    ensures w < j && steps[w] == Write(b)
  {
    assert Steps(states[j - 1], steps[j - 1], states[j - 1 + 1]);
    if b in states[j - 1].history {
      w := WrittenSomewhere(states, steps, j - 1, b);
    } else {
      OnlyWriteAdds(states[j - 1], steps[j - 1], states[j], b);
      w := j - 1;
    }
  }

  /** Nothing is made up: whatever a cut leaves to be found was written. */
  lemma OnlyWrittenIsFound(states: seq<State>, steps: seq<Step>, j: nat, b: Batch, after: Disk) returns (w: nat)
    requires IsRun(states, steps) && j < |states| && IsCrash(states[j].disk, after)
    requires Recovered(after).Some? && b in Recovered(after).value.batches
    ensures w < j && steps[w] == Write(b)
  {
    var k := RunIsDurable(states, steps, j, j, after);
    assert b in states[j].history[..k];
    w := WrittenSomewhere(states, steps, j, b);
  }
}
