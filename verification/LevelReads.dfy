/** Runs of the background thread in terms of what was flushed and which
    snapshots were live, with nothing said of what a state keeps for the
    proof. */
module LevelReads {
  import opened Keys
  import opened Entries
  import opened Levels
  import opened CompactionWork
  import opened LevelReplace
  import opened LevelRuns

  // ------------------------------------------------------------ what was flushed

  /** Step i of the run flushed this entry. */
  ghost predicate FlushedAt(states: seq<State>, i: nat, e: Entry) {
    i + 1 < |states| && FlushedIn(states[i], states[i + 1], e)
  }

  ghost predicate FlushedIn(s: State, s': State, e: Entry) {
    exists f, level :: Flush(s, s', f, level) && e in f.entries
  }

  /** What the steps before state j flushed. */
  ghost predicate FlushedBefore(states: seq<State>, j: nat, e: Entry) {
    exists i: nat :: i < j && FlushedAt(states, i, e)
  }

  lemma StepHistory(s: State, s': State, e: Entry)
    requires Next(s, s')
    ensures e in s'.history <==> e in s.history || FlushedIn(s, s', e)
  {
  }

  lemma FlushedBeforeNext(states: seq<State>, j: nat, e: Entry)
    ensures FlushedBefore(states, j + 1, e) <==> FlushedBefore(states, j, e) || FlushedAt(states, j, e)
  {
    if i: nat :| i < j + 1 && FlushedAt(states, i, e) {
      assert i == j || i < j;
    }
    if i: nat :| i < j && FlushedAt(states, i, e) {
      assert i < j + 1;
    }
  }

  lemma {:induction false} HistoryIsFlushed(states: seq<State>, j: nat, e: Entry)
    requires IsRun(states) && j < |states|
    ensures e in states[j].history <==> FlushedBefore(states, j, e)
  {
    if j > 0 {
      var i := j - 1;
      HistoryIsFlushed(states, i, e);
      assert Next(states[i], states[i + 1]);
      StepHistory(states[i], states[i + 1], e);
      FlushedBeforeNext(states, i, e);
    }
  }

  // ----------------------------------------------------------- live snapshots

  /** This step begins no compaction for a snapshot above this one. */
  ghost predicate BeginsBelow(s: State, s': State, snapshot: nat) {
    forall level: nat, in0, in1, live: nat :: Begin(s, s', level, in0, in1, live) ==> live <= snapshot
  }

  ghost predicate Below(s: State, snapshot: nat) {
    s.horizon <= snapshot && (s.job.Some? ==> s.job.value.snapshot <= snapshot)
  }

  lemma StepBelow(s: State, s': State, snapshot: nat)
    requires Next(s, s') && Below(s, snapshot) && BeginsBelow(s, s', snapshot)
    ensures Below(s', snapshot)
  {
  }

  lemma {:induction false} RunBelow(states: seq<State>, j: nat, snapshot: nat)
    requires IsRun(states) && j < |states|
    requires forall i :: 0 <= i < |states| - 1 ==> BeginsBelow(states[i], states[i + 1], snapshot)
    ensures Below(states[j], snapshot)
  {
    if j > 0 {
      RunBelow(states, j - 1, snapshot);
      var i := j - 1;
      assert Next(states[i], states[i + 1]) && BeginsBelow(states[i], states[i + 1], snapshot);
      StepBelow(states[i], states[i + 1], snapshot);
    }
  }

  // -------------------------------------------------------------- reads of a run

  /** A read at any snapshot no compaction of the run went above sees, in the
      installed version, what it would see in everything the run flushed. */
  lemma RunReads(states: seq<State>, j: nat, user: UserKey, snapshot: nat) returns (flushed: set<Entry>)
    requires IsRun(states) && j < |states|
    requires forall i :: 0 <= i < |states| - 1 ==> OffGaps(states[i], states[i + 1])
    requires forall i :: 0 <= i < |states| - 1 ==> BeginsBelow(states[i], states[i + 1], snapshot)
    ensures forall e :: e in flushed <==> FlushedBefore(states, j, e)
    ensures View(Store(states[j].version), user, snapshot) == View(flushed, user, snapshot)
  {
    RunIsSound(states, j);
    RunBelow(states, j, snapshot);
    flushed := states[j].history;
    forall e ensures e in flushed <==> FlushedBefore(states, j, e) {
      HistoryIsFlushed(states, j, e);
    }
  }

  /** The same where the compactions were picked, whatever the flushes. */
  lemma PickedRunReads(states: seq<State>, j: nat, user: UserKey, snapshot: nat) returns (flushed: set<Entry>)
    requires IsRun(states) && j < |states| && forall k :: 0 <= k < |states| ==> JobConnected(states[k])
    requires forall i :: 0 <= i < |states| - 1 ==> BeginsBelow(states[i], states[i + 1], snapshot)
    ensures forall e :: e in flushed <==> FlushedBefore(states, j, e)
    ensures View(Store(states[j].version), user, snapshot) == View(flushed, user, snapshot)
  {
    PickedRunIsSound(states, j);
    RunBelow(states, j, snapshot);
    flushed := states[j].history;
    forall e ensures e in flushed <==> FlushedBefore(states, j, e) {
      HistoryIsFlushed(states, j, e);
    }
  }

  // ------------------------------------------------------- what the steps install

  /** A finished compaction leaves no input where it was, puts every output in
      the next level, and moves nothing else. */
  lemma FinishInstalls(s: State, s': State, merged: seq<Entry>, outputs: seq<File>, l: nat, f: File)
    requires Inv(s) && Finish(s, s', merged, outputs) && l < NUM_LEVELS
    ensures var j := s.job.value;
            f in s'.version[l] <==>
              || (l == j.level + 1 && f in outputs)
              || (f in s.version[l] && !(l == j.level && f in j.in0) && !(l == j.level + 1 && f in j.in1))
  {
  }

  lemma MoveInstalls(s: State, s': State, level: nat, f: File, l: nat, g: File)
    requires Inv(s) && TrivialMove(s, s', level, f) && l < NUM_LEVELS
    ensures g in s'.version[l] <==> (l == level + 1 && g == f) || (g in s.version[l] && !(l == level && g == f))
  {
  }

  // ------------------------------------------------------- what a compaction keeps

  lemma JobStays(s: State, s': State)
    requires Next(s, s') && s.job.Some? && s'.job.Some?
    ensures s'.job == s.job
  {
  }

  lemma {:induction false} JobLasts(states: seq<State>, i: nat, j: nat)
    requires IsRun(states) && i <= j < |states| && forall m :: i <= m <= j ==> states[m].job.Some?
    ensures states[j].job == states[i].job
    decreases j
  {
    if i < j {
      JobLasts(states, i, j - 1);
      var m := j - 1;
      assert Next(states[m], states[m + 1]);
      JobStays(states[m], states[m + 1]);
    }
  }

  /** From the step that begins a compaction to the one that finishes it, with
      whatever flushes between: an input entry is in an output if and only if no
      newer version of its key is seen by every live snapshot and it is not a
      tombstone with nothing below it to hide. */
  lemma CompactionKeeps(states: seq<State>, i: nat, j: nat, level: nat, in0: seq<File>, in1: seq<File>, live: nat,
                        merged: seq<Entry>, outputs: seq<File>, k: nat)
    requires IsRun(states) && i < j && j + 1 < |states| && |states[i].version| == NUM_LEVELS
    requires Begin(states[i], states[i + 1], level, in0, in1, live)
    requires forall m :: i < m <= j ==> states[m].job.Some?
    requires Finish(states[j], states[j + 1], merged, outputs) && k < |merged|
    ensures SetOf(merged) == EntriesOf(in0 + in1)
    ensures (exists f :: f in outputs && merged[k] in f.entries) <==>
            !Shadowed(merged, live, k) && !Spent(merged[k], live, states[i].version, level)
  {
    JobLasts(states, i + 1, j);
    OutputsHold(outputs, merged, live, states[i].version, level, k);
  }
}
