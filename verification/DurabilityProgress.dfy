/** A database that is down can always be opened again, and one that is open can
    always move its log into a table and drop it.  Each is a run of steps given
    outright, so every step of the protocol does its part. */
module DurabilityProgress {
  import opened Entries
  import opened Disks
  import opened Durability
  import opened DurabilityRuns

  /** These steps, none of them a cut, lead from one state to another. */
  ghost predicate LeadsTo(s: State, steps: seq<Step>, t: State)
    decreases |steps|
  {
    if steps == [] then t == s
    else !steps[0].Crash? && Enabled(s, steps[0]) && LeadsTo(Took(s, steps[0]), steps[1..], t)
  }

  lemma {:induction false} LeadsOn(s: State, steps: seq<Step>, t: State, step: Step)
    requires LeadsTo(s, steps, t) && Enabled(t, step) && !step.Crash?
    ensures LeadsTo(s, steps + [step], Took(t, step))
    decreases |steps|
  {
    if steps == [] {
      assert (steps + [step])[1..] == [];
    } else {
      assert (steps + [step])[1..] == steps[1..] + [step];
      LeadsOn(Took(s, steps[0]), steps[1..], t, step);
    }
  }

  /** One more step, and what it leads to. */
  lemma Go(s: State, steps: seq<Step>, t: State, step: Step) returns (more: seq<Step>, u: State)
    requires LeadsTo(s, steps, t) && Enabled(t, step) && !step.Crash?
    ensures more == steps + [step] && u == Took(t, step) && LeadsTo(s, more, u)
  {
    LeadsOn(s, steps, t, step);
    more, u := steps + [step], Took(t, step);
  }

  lemma {:induction false} LeadsKeepsInv(s: State, steps: seq<Step>, t: State)
    requires LeadsTo(s, steps, t) && Inv(s)
    ensures Inv(t)
    decreases |steps|
  {
    if steps != [] {
      StepKeepsInv(s, steps[0]);
      LeadsKeepsInv(Took(s, steps[0]), steps[1..], t);
    }
  }

  /** No file has this number or a higher one. */
  ghost predicate Free(files: map<nat, File>, n: nat) {
    forall i :: i in files ==> i < n
  }

  lemma {:induction false} FreeNumber(files: map<nat, File>) returns (n: nat)
    ensures Free(files, n)
    decreases |files|
  {
    n := 0;
    if files != map[] {
      var i :| i in files;
      var rest := files - {i};
      assert |rest.Keys| < |files.Keys| by {
        assert rest.Keys == files.Keys - {i};
      }
      n := FreeNumber(rest);
      if n <= i {
        n := i + 1;
      }
      assert forall k :: k in files ==> k == i || k in rest;
    }
  }

  /** An opening with a table of everything in the logs and a new log, both
      named, and nothing pending. */
  ghost predicate Gathered(s: State, table: nat, log: nat) {
    && s.phase.Opening? && Inv(s) && s.phase.target.None? && s.phase.switch.None? && s.disk.pending == []
    && s.phase.version.log.Some? && SolidTables(s.disk, {table})
    && TableBatches(s.disk.files, {table}) ==
        LogBatches(s.disk.files, AllLogs(s.disk.files, s.phase.version.log.value))
    && log in s.disk.files && s.disk.files[log].kind.LogFile? && log in s.disk.dir.linked && Empty(s.disk.files[log])
    && (forall i :: i in s.disk.files && s.disk.files[i].kind.LogFile? && log <= i ==> i == log)
  }

  /** Every name in play stands for a file. */
  ghost predicate Known(s: State) {
    var d, p := s.disk, s.phase;
    match p
    case Down => false
    case Opening(_, _, _, _, _, _) =>
      && p.pointer in d.files && p.manifest in d.files && (forall i :: i in p.version.tables ==> i in d.files)
      && (p.switch.Some? ==> p.switch.value in d.files)
      && (p.target.Some? ==> p.target.value.manifest in d.files)
      && (p.target.Some? ==> forall i :: i in p.target.value.added ==> i in d.files)
    case Up(_, _, _, _, _, _, _, _, _) =>
      && (d.dir.current.Some? ==> d.dir.current.value in d.files) && p.manifest in d.files && p.active in d.files
      && (forall i :: i in p.version.tables ==> i in d.files)
      && (p.edit.Some? ==> forall i :: i in p.edit.value.added ==> i in d.files)
  }

  lemma NamesKnown(s: State)
    requires !s.phase.Down? && Inv(s)
    ensures Known(s) && (s.phase.Opening? ==> s.phase.version.log.Some?)
  {
  }

  lemma NewIsWritable(s: State, id: nat, kind: Kind)
    requires Known(s) && id !in s.disk.files
    ensures Writable(s, id, kind)
  {
  }

  /** A new table, written and synced. */
  ghost function WithTable(d: Disk, id: nat, rows: set<Batch>): Disk {
    SyncFile(Create(d, id, TableFile, [Rows(rows)]), id)
  }

  lemma MakeTable(s: State, steps: seq<Step>, t: State, id: nat, rows: set<Batch>) returns (more: seq<Step>)
    requires LeadsTo(s, steps, t) && Writable(t, id, TableFile)
    ensures LeadsTo(s, more, t.(disk := WithTable(t.disk, id, rows)))
  {
    LeadsOn(s, steps, t, NewTable(id, rows));
    var made := Took(t, NewTable(id, rows));
    more := steps + [NewTable(id, rows)];
    LeadsOn(s, more, made, SyncOne(id));
    more := more + [SyncOne(id)];
  }

  /** Naming one table and one log that are new. */
  ghost function WithLog(d: Disk, id: nat): Disk {
    SyncDirectory(Create(d, id, LogFile, []))
  }

  lemma MakeLog(s: State, steps: seq<Step>, t: State, id: nat) returns (more: seq<Step>)
    requires LeadsTo(s, steps, t) && Writable(t, id, LogFile)
    ensures LeadsTo(s, more, t.(disk := WithLog(t.disk, id)))
  {
    LeadsOn(s, steps, t, NewLog(id));
    var made := Took(t, NewLog(id));
    more := steps + [NewLog(id)];
    LeadsOn(s, more, made, SyncNames);
    more := more + [SyncNames];
  }

  lemma LandsTwo(d: Disk, a: nat, b: nat)
    requires d.pending == []
    ensures ApplyAll(d.dir, d.pending + [Link(a)] + [Link(b)]) == d.dir.(linked := d.dir.linked + {a} + {b})
  {
    ApplyAppend(d.dir, [], Link(a));
    ApplyAppend(d.dir, [Link(a)], Link(b));
    assert [] + [Link(a)] == [Link(a)];
  }

  /** The disk with both: what they hold, and nothing else is different. */
  lemma Both(d: Disk, n: nat, rows: set<Batch>)
    requires Free(d.files, n) && d.pending == []
    ensures var e := WithLog(WithTable(d, n, rows), n + 1);
            && e == Disk(d.files[n := File(TableFile, [Rows(rows)], 1, None)][n + 1 := File(LogFile, [], 0, None)],
                         d.dir.(linked := d.dir.linked + {n} + {n + 1}), [])
  {
    LandsTwo(d, n, n + 1);
  }

  lemma SameLogBatches(d: Disk, e: Disk, n: nat, rows: set<Batch>, log: nat)
    requires Free(d.files, n)
    requires e.files == d.files[n := File(TableFile, [Rows(rows)], 1, None)][n + 1 := File(LogFile, [], 0, None)]
    ensures LogBatches(e.files, AllLogs(e.files, log)) == LogBatches(d.files, AllLogs(d.files, log))
    ensures TableBatches(e.files, {n}) == rows
  {
    var a, b := LogBatches(e.files, AllLogs(e.files, log)), LogBatches(d.files, AllLogs(d.files, log));
    forall x ensures x in a <==> x in b {
      if x in b {
        var i :| i in AllLogs(d.files, log) && i in d.files && x in BatchesIn(d.files[i].data);
        assert i in AllLogs(e.files, log) && e.files[i] == d.files[i];
      }
      if x in a {
        var i :| i in AllLogs(e.files, log) && i in e.files && x in BatchesIn(e.files[i].data);
        assert i in AllLogs(d.files, log) && e.files[i] == d.files[i];
      }
    }
    assert RowsIn(e.files[n]) == rows;
  }

  lemma GatherSteps(s: State, n: nat, rows: set<Batch>) returns (steps: seq<Step>)
    requires s.phase.Opening? && Known(s) && Free(s.disk.files, n)
    ensures LeadsTo(s, steps, s.(disk := WithLog(WithTable(s.disk, n, rows), n + 1)))
  {
    NewIsWritable(s, n, TableFile);
    steps := MakeTable(s, [], s, n, rows);
    var made := s.(disk := WithTable(s.disk, n, rows));
    NewIsWritable(made, n + 1, LogFile);
    steps := MakeLog(s, steps, made, n + 1);
  }

  lemma GatheredNow(s: State, t: State, n: nat, rows: set<Batch>)
    requires s.phase.Opening? && s.phase.target.None? && s.phase.switch.None? && s.disk.pending == []
    requires s.phase.version.log.Some? && Free(s.disk.files, n) && Inv(t)
    requires rows == LogBatches(s.disk.files, AllLogs(s.disk.files, s.phase.version.log.value))
    requires t == s.(disk := WithLog(WithTable(s.disk, n, rows), n + 1))
    ensures Gathered(t, n, n + 1)
  {
    Both(s.disk, n, rows);
    SameLogBatches(s.disk, t.disk, n, rows, s.phase.version.log.value);
  }

  lemma Gather(s: State) returns (steps: seq<Step>, t: State, table: nat, log: nat)
    requires s.phase.Opening? && Inv(s) && s.phase.target.None? && s.phase.switch.None? && s.disk.pending == []
    ensures LeadsTo(s, steps, t) && Gathered(t, table, log) && t.history == s.history && t.phase == s.phase
  {
    NamesKnown(s);
    var n := FreeNumber(s.disk.files);
    var rows := LogBatches(s.disk.files, AllLogs(s.disk.files, s.phase.version.log.value));
    steps := GatherSteps(s, n, rows);
    t, table, log := s.(disk := WithLog(WithTable(s.disk, n, rows), n + 1)), n, n + 1;
    LeadsKeepsInv(s, steps, t);
    GatheredNow(s, t, n, rows);
  }

  // --------------------------------------------------------- the fresh manifest

  /** The fresh manifest is written and synced, and the switch not begun. */
  ghost predicate Ready(s: State, manifest: nat)
    requires manifest in s.disk.files
  {
    && s.phase.Opening? && Inv(s) && s.phase.switch.None?
    && s.phase.target.Some? && s.phase.target.value.manifest == manifest && s.disk.pending == [Link(manifest)]
    && s.disk.files[manifest] == Synced(s.disk.files[manifest])
  }

  lemma ManifestSteps(s: State, table: nat, log: nat, id: nat) returns (steps: seq<Step>, t: State)
    requires s.phase.Opening? && s.phase.target.None? && Known(s) && Free(s.disk.files, id)
    requires Gathered(s, table, log)
    ensures LeadsTo(s, steps, t) && t.history == s.history
    ensures t == s.(disk := SyncFile(Create(s.disk, id, ManifestFile, Snapshot(s.phase.version.tables, {table}, log,
                                       s.phase.last)), id),
                    phase := s.phase.(target := Some(Target(id, {table}, log))))
  {
    NewIsWritable(s, id, ManifestFile);
    assert Coming(s.disk, log);
    assert LeadsTo(s, [], s);
    steps, t := Go(s, [], s, WriteManifest(id, {table}, log));
    steps, t := Go(s, steps, t, SyncOne(id));
  }

  lemma MakeManifest(s: State, table: nat, log: nat) returns (steps: seq<Step>, t: State, id: nat)
    requires Gathered(s, table, log)
    ensures LeadsTo(s, steps, t) && id in t.disk.files && Ready(t, id) && t.history == s.history
  {
    NamesKnown(s);
    id := FreeNumber(s.disk.files);
    steps, t := ManifestSteps(s, table, log, id);
    LeadsKeepsInv(s, steps, t);
  }

  lemma LandsSwitch(dir: Dir, manifest: nat, temp: nat)
    requires manifest != temp
    ensures ApplyAll(dir, [Link(manifest), Link(temp), Rename(temp)]).current == Some(temp)
  {
    ApplyAppend(dir, [Link(manifest), Link(temp)], Rename(temp));
    assert [Link(manifest), Link(temp)] + [Rename(temp)] == [Link(manifest), Link(temp), Rename(temp)];
  }

  lemma PointerSteps(s: State, manifest: nat, temp: nat) returns (steps: seq<Step>, t: State)
    requires s.phase.Opening? && Known(s) && Free(s.disk.files, temp)
    requires s.phase.target.Some? && s.phase.target.value.manifest == manifest
    ensures LeadsTo(s, steps, t)
    ensures t == s.(disk := SyncFile(Create(s.disk, temp, TempFile, [Names(manifest)]), temp))
  {
    NewIsWritable(s, temp, TempFile);
    assert LeadsTo(s, [], s);
    steps, t := Go(s, [], s, NewTemp(temp));
    steps, t := Go(s, steps, t, SyncOne(temp));
  }

  lemma MakePointer(s: State, manifest: nat) returns (steps: seq<Step>, t: State, temp: nat)
    requires manifest in s.disk.files && Ready(s, manifest)
    ensures LeadsTo(s, steps, t) && t.phase == s.phase && t.history == s.history
    ensures t.disk.pending == [Link(manifest), Link(temp)] && temp != s.phase.pointer && temp != manifest
    ensures Points(t.disk, temp, manifest)
    ensures manifest in t.disk.files && t.disk.files[manifest] == s.disk.files[manifest]
  {
    NamesKnown(s);
    temp := FreeNumber(s.disk.files);
    steps, t := PointerSteps(s, manifest, temp);
  }

  /** The switch lands and the database is open. */
  lemma SwitchOver(s: State, manifest: nat, temp: nat) returns (steps: seq<Step>, t: State)
    requires s.phase.Opening? && s.phase.switch.None? && s.phase.target.Some?
    requires s.phase.target.value.manifest == manifest
    requires s.disk.pending == [Link(manifest), Link(temp)] && temp != s.phase.pointer && temp != manifest
    requires manifest in s.disk.files && s.disk.files[manifest] == Synced(s.disk.files[manifest])
    requires Points(s.disk, temp, manifest)
    ensures LeadsTo(s, steps, t) && t.phase.Up? && t.history == s.history && t.phase.mem == {} && t.phase.imm.None?
  {
    assert LeadsTo(s, [], s);
    LeadsOn(s, [], s, Switch(temp));
    var switched := Took(s, Switch(temp));
    steps := [] + [Switch(temp)];
    assert switched.disk.pending == [Link(manifest), Link(temp), Rename(temp)];
    LeadsOn(s, steps, switched, SyncNames);
    var landed := Took(switched, SyncNames);
    steps := steps + [SyncNames];
    LandsSwitch(s.disk.dir, manifest, temp);
    LeadsOn(s, steps, landed, Finish);
    steps, t := steps + [Finish], Took(landed, Finish);
  }

  lemma {:induction false} LeadsJoin(s: State, a: seq<Step>, t: State, b: seq<Step>, u: State)
    requires LeadsTo(s, a, t) && LeadsTo(t, b, u)
    ensures LeadsTo(s, a + b, u)
    decreases |a|
  {
    if a == [] {
      assert a + b == b;
    } else {
      assert (a + b)[1..] == a[1..] + b;
      LeadsJoin(Took(s, a[0]), a[1..], t, b, u);
    }
  }

  lemma BeginOpening(s: State) returns (steps: seq<Step>, t: State)
    requires s.phase.Down? && Inv(s)
    ensures LeadsTo(s, steps, t) && Inv(t) && t.phase.Opening? && t.phase.target.None? && t.phase.switch.None?
    ensures t.disk == s.disk && t.history == s.history
  {
    var m :| Recovers(s.disk, m, Among(s.history));
    RecoversAll(s.disk, m, Among(s.history));
    var step := Begin(s.disk.dir.current.value, m);
    assert LeadsTo(s, [], s);
    LeadsOn(s, [], s, step);
    steps, t := [] + [step], Took(s, step);
    LeadsKeepsInv(s, steps, t);
  }

  /** Recovery always succeeds: from every state a cut can leave, steps of the
      protocol lead to an open database with the same history. */
  lemma CanOpen(s: State) returns (steps: seq<Step>, t: State)
    requires s.phase.Down? && Inv(s)
    ensures LeadsTo(s, steps, t) && t.phase.Up? && Inv(t) && t.history == s.history
    ensures t.phase.mem == {} && t.phase.imm.None?
  {
    var more, u, table, log, manifest, temp;
    steps, t := BeginOpening(s);
    more, u, table, log := Gather(t);
    LeadsJoin(s, steps, t, more, u);
    steps, t := steps + more, u;
    more, u, manifest := MakeManifest(t, table, log);
    LeadsJoin(s, steps, t, more, u);
    steps, t := steps + more, u;
    more, u, temp := MakePointer(t, manifest);
    LeadsJoin(s, steps, t, more, u);
    steps, t := steps + more, u;
    more, u := SwitchOver(t, manifest, temp);
    LeadsJoin(s, steps, t, more, u);
    steps, t := steps + more, u;
    LeadsKeepsInv(s, steps, t);
  }

  /** Cut the power at any point of any run: steps of the protocol lead to an
      open database whose history is exactly what recovery finds. */
  lemma AlwaysReopens(states: seq<State>, steps: seq<Step>, j: nat, after: Disk) returns (more: seq<Step>, t: State)
    requires IsRun(states, steps) && j < |states| && IsCrash(states[j].disk, after)
    ensures LeadsTo(Took(states[j], Crash(after)), more, t) && t.phase.Up? && Inv(t)
    ensures Recovered(after).Some? && InSequence(t.history) && Among(t.history) == Recovered(after).value.batches
  {
    RunKeepsInv(states, steps, j);
    var down := Took(states[j], Crash(after));
    StepKeepsInv(states[j], Crash(after));
    var m :| Recovers(down.disk, m, Among(down.history));
    RecoversAll(down.disk, m, Among(down.history));
    more, t := CanOpen(down);
  }

  // ------------------------------------------------------------- an open database

  lemma UpKinds(s: State)
    requires s.phase.Up? && Inv(s)
    ensures Known(s) && s.disk.files[s.phase.active].kind.LogFile? && s.disk.files[s.phase.manifest].kind.ManifestFile?
    ensures s.disk.dir.current.Some? ==> s.disk.files[s.disk.dir.current.value].kind.TempFile?
  {
  }

  lemma LinkLandsLast(d: Disk, id: nat)
    ensures Linked(SyncDirectory(WithOp(d, Link(id))), id)
  {
    ApplyAppend(d.dir, d.pending, Link(id));
  }

  lemma RotateSteps(s: State, id: nat) returns (steps: seq<Step>, t: State)
    requires s.phase.Up? && Known(s) && s.phase.imm.None? && Free(s.disk.files, id)
    ensures LeadsTo(s, steps, t) && t.history == s.history && t.synced == s.synced
    ensures t.phase == s.phase.(active := id, mem := {}, imm := Some(s.phase.mem), start := |s.history|)
    ensures s.phase.active in t.disk.files && t.disk.files[s.phase.active] == Synced(s.disk.files[s.phase.active])
  {
    NewIsWritable(s, id, LogFile);
    steps := MakeLog(s, [], s, id);
    t := s.(disk := WithLog(s.disk, id));
    LinkLandsLast(s.disk, id);
    steps, t := Go(s, steps, t, SyncOne(s.phase.active));
    steps, t := Go(s, steps, t, Rotate(id));
  }

  /** A new log takes over, and the full memtable waits to be flushed. */
  lemma RotateLog(s: State) returns (steps: seq<Step>, t: State)
    requires s.phase.Up? && Inv(s) && s.phase.imm.None?
    ensures LeadsTo(s, steps, t) && Inv(t) && t.phase.Up? && t.history == s.history
    ensures t.phase == s.phase.(active := t.phase.active, mem := {}, imm := Some(s.phase.mem), start := |s.history|)
    ensures s.phase.active < t.phase.active && s.phase.active in t.disk.files
    ensures t.disk.files[s.phase.active].kind.LogFile?
  {
    UpKinds(s);
    var id := FreeNumber(s.disk.files);
    steps, t := RotateSteps(s, id);
    LeadsKeepsInv(s, steps, t);
  }

  lemma TableLands(d: Disk, table: nat, rows: set<Batch>)
    requires table !in d.files
    ensures var e := SyncDirectory(WithTable(d, table, rows));
            && SolidTables(e, {table}) && TableBatches(e.files, {table}) == rows
            && forall i :: i in d.files ==> i in e.files && e.files[i] == d.files[i]
  {
    var e := SyncDirectory(WithTable(d, table, rows));
    LinkLandsLast(d, table);
    assert e.files[table] == File(TableFile, [Rows(rows)], 1, None);
    assert RowsIn(e.files[table]) == rows;
  }

  /** The waiting memtable in a table that may be mentioned. */
  lemma WriteTable(s: State) returns (steps: seq<Step>, t: State, table: nat)
    requires s.phase.Up? && Inv(s) && s.phase.imm.Some? && s.phase.edit.None?
    ensures LeadsTo(s, steps, t) && Inv(t) && t.phase == s.phase && t.history == s.history
    ensures SolidTables(t.disk, {table}) && TableBatches(t.disk.files, {table}) == s.phase.imm.value
    ensures forall i :: i in s.disk.files ==> i in t.disk.files && t.disk.files[i] == s.disk.files[i]
  {
    NamesKnown(s);
    table := FreeNumber(s.disk.files);
    NewIsWritable(s, table, TableFile);
    steps := MakeTable(s, [], s, table, s.phase.imm.value);
    t := s.(disk := WithTable(s.disk, table, s.phase.imm.value));
    steps, t := Go(s, steps, t, SyncNames);
    LeadsKeepsInv(s, steps, t);
    TableLands(s.disk, table, s.phase.imm.value);
  }

  lemma InstallSteps(s: State, table: nat) returns (steps: seq<Step>, t: State)
    requires s.phase.Up? && Known(s) && s.phase.imm.Some? && s.phase.edit.None?
    requires SolidTables(s.disk, {table}) && TableBatches(s.disk.files, {table}) == s.phase.imm.value
    ensures LeadsTo(s, steps, t) && t.history == s.history
    ensures t.phase.Up? && t.phase == s.phase.(version := t.phase.version, imm := None, logged := false)
    ensures t.phase.version.log == Some(s.phase.active)
    ensures forall i :: i in s.disk.files && i != s.phase.manifest ==>
              i in t.disk.files && t.disk.files[i] == s.disk.files[i]
  {
    var p := s.phase;
    var edit := Edit({table}, {}, Some(p.active), Some(p.last));
    assert FlushEdit(s, edit);
    assert LeadsTo(s, [], s);
    steps, t := Go(s, [], s, Plan(edit));
    steps, t := Go(s, steps, t, LogEdit);
    steps, t := Go(s, steps, t, SyncOne(p.manifest));
    steps, t := Go(s, steps, t, Install);
  }

  /** The flush is installed: no memtable waits, and no log but the active one
      is needed. */
  lemma InstallTable(s: State, table: nat) returns (steps: seq<Step>, t: State)
    requires s.phase.Up? && Inv(s) && s.phase.imm.Some? && s.phase.edit.None?
    requires SolidTables(s.disk, {table}) && TableBatches(s.disk.files, {table}) == s.phase.imm.value
    ensures LeadsTo(s, steps, t) && Inv(t) && t.phase.Up? && t.history == s.history
    ensures t.phase == s.phase.(version := t.phase.version, imm := None, logged := false)
    ensures t.phase.version.log == Some(s.phase.active)
    ensures forall i :: i in s.disk.files && s.disk.files[i].kind.LogFile? ==>
              i in t.disk.files && t.disk.files[i] == s.disk.files[i]
  {
    UpKinds(s);
    steps, t := InstallSteps(s, table);
    LeadsKeepsInv(s, steps, t);
  }

  /** A log that is no longer needed goes. */
  lemma DropLog(s: State, log: nat) returns (steps: seq<Step>, t: State)
    requires s.phase.Up? && Inv(s) && log in s.disk.files && s.disk.files[log].kind.LogFile?
    requires s.phase.version.log.Some? && log < s.phase.version.log.value
    ensures LeadsTo(s, steps, t) && Inv(t) && t.phase == s.phase && t.history == s.history
    ensures log !in t.disk.dir.linked
  {
    UpKinds(s);
    assert LeadsTo(s, [], s);
    steps, t := Go(s, [], s, Remove(log));
    ApplyAppend(s.disk.dir, s.disk.pending, Unlink(log));
    steps, t := Go(s, steps, t, SyncNames);
    LeadsKeepsInv(s, steps, t);
  }

  /** With nothing waiting and an empty memtable, the tables hold everything. */
  lemma TablesHoldAll(s: State)
    requires s.phase.Up? && Inv(s) && s.phase.imm.None? && s.phase.start == |s.history|
    ensures TableBatches(s.disk.files, s.phase.version.tables) == Among(s.history)
  {
    assert s.history[..s.phase.start] == s.history;
  }

  /** The log can always be moved into a table and dropped: steps lead to a
      database with the same history, all of it in tables, whose log is a new
      one with nothing in it, and the old log's name is gone. */
  lemma CanFlush(s: State) returns (steps: seq<Step>, t: State)
    requires s.phase.Up? && Inv(s) && s.phase.imm.None? && s.phase.edit.None?
    ensures LeadsTo(s, steps, t) && Inv(t) && t.phase.Up? && t.history == s.history
    ensures TableBatches(t.disk.files, t.phase.version.tables) == Among(s.history)
    ensures t.phase.active != s.phase.active && t.phase.mem == {} && s.phase.active !in t.disk.dir.linked
  {
    var more, u, table;
    steps, t := RotateLog(s);
    more, u, table := WriteTable(t);
    LeadsJoin(s, steps, t, more, u);
    steps, t := steps + more, u;
    more, u := InstallTable(t, table);
    LeadsJoin(s, steps, t, more, u);
    steps, t := steps + more, u;
    more, u := DropLog(t, s.phase.active);
    LeadsJoin(s, steps, t, more, u);
    steps, t := steps + more, u;
    TablesHoldAll(t);
  }

  // ------------------------------------------------------------------ a compaction

  lemma CompactSteps(s: State, edit: Edit) returns (steps: seq<Step>, t: State)
    requires s.phase.Up? && Known(s) && s.phase.edit.None? && edit.last == Some(s.phase.last)
    requires SolidTables(s.disk, edit.added) && CompactionEdit(s, edit)
    ensures LeadsTo(s, steps, t) && t.history == s.history && t.phase.Up?
    ensures t.phase.version.tables == s.phase.version.tables - edit.removed + edit.added
    ensures t.phase.edit.None? && t.phase.active == s.phase.active && t.phase.mem == s.phase.mem
    ensures forall i :: i in s.disk.files ==> i in t.disk.files && t.disk.files[i].kind == s.disk.files[i].kind
  {
    assert LeadsTo(s, [], s);
    steps, t := Go(s, [], s, Plan(edit));
    steps, t := Go(s, steps, t, LogEdit);
    steps, t := Go(s, steps, t, SyncOne(s.phase.manifest));
    steps, t := Go(s, steps, t, Install);
  }

  lemma MergedTable(s: State, removed: set<nat>) returns (steps: seq<Step>, t: State, table: nat)
    requires s.phase.Up? && Inv(s) && removed <= s.phase.version.tables
    ensures LeadsTo(s, steps, t) && Inv(t) && t.phase == s.phase && t.history == s.history
    ensures table !in removed && SolidTables(t.disk, {table})
    ensures TableBatches(t.disk.files, {table}) == TableBatches(t.disk.files, removed)
    ensures forall i :: i in removed ==> i in t.disk.files && t.disk.files[i].kind.TableFile?
  {
    NamesKnown(s);
    TablesAreTables(s);
    table := FreeNumber(s.disk.files);
    var rows := TableBatches(s.disk.files, removed);
    NewIsWritable(s, table, TableFile);
    steps := MakeTable(s, [], s, table, rows);
    t := s.(disk := WithTable(s.disk, table, rows));
    steps, t := Go(s, steps, t, SyncNames);
    LeadsKeepsInv(s, steps, t);
    TableLands(s.disk, table, rows);
    SameTableBatches(s.disk, t.disk, removed);
  }

  lemma TablesAreTables(s: State)
    requires s.phase.Up? && Inv(s)
    ensures forall i :: i in s.phase.version.tables ==> i in s.disk.files && s.disk.files[i].kind.TableFile?
  {
  }

  lemma SameTableBatches(d: Disk, e: Disk, tables: set<nat>)
    requires forall i :: i in tables ==> i in d.files
    requires forall i :: i in d.files ==> i in e.files && e.files[i] == d.files[i]
    ensures TableBatches(e.files, tables) == TableBatches(d.files, tables)
  {
    var x, y := TableBatches(e.files, tables), TableBatches(d.files, tables);
    forall b ensures b in x <==> b in y {
    }
  }

  /** Any tables of the version can always be merged into one: steps lead to a
      database with the same history in which the one stands for them, and each
      of them may be removed. */
  lemma CanCompact(s: State, removed: set<nat>) returns (steps: seq<Step>, t: State, table: nat)
    requires s.phase.Up? && Inv(s) && s.phase.edit.None? && removed <= s.phase.version.tables
    ensures LeadsTo(s, steps, t) && Inv(t) && t.phase.Up? && t.history == s.history
    ensures t.phase.version.tables == s.phase.version.tables - removed + {table} && t.phase.mem == s.phase.mem
    ensures forall i :: i in removed ==> Enabled(t, Remove(i))
  {
    var more, u;
    steps, t, table := MergedTable(s, removed);
    NamesKnown(t);
    var edit := Edit({table}, removed, t.phase.version.log, Some(t.phase.last));
    assert CompactionEdit(t, edit);
    more, u := CompactSteps(t, edit);
    LeadsJoin(s, steps, t, more, u);
    LeadsKeepsInv(t, more, u);
    forall i | i in removed ensures Enabled(u, Remove(i)) {
      assert i in t.disk.files && t.disk.files[i].kind.TableFile?;
      RemovableTable(u, i);
    }
    steps, t := steps + more, u;
  }

  /** A table of no version may be removed. */
  lemma RemovableTable(s: State, id: nat)
    requires s.phase.Up? && Inv(s) && s.phase.edit.None? && id in s.disk.files && s.disk.files[id].kind.TableFile?
    requires id !in s.phase.version.tables
    ensures Enabled(s, Remove(id))
  {
    UpKinds(s);
  }
}
