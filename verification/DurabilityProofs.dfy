/** Over every run of the commit protocol, recovery finds a prefix of the
    history that holds every batch acknowledged with sync. */
module DurabilityProofs {
  import opened Entries
  import opened Disks
  import opened Durability
  import opened DurabilityFrames

  // ------------------------------------------------------------- power cuts

  lemma BatchesOfPrefix(f: File, now: File, history: seq<Batch>, start: nat, synced: nat)
    requires ActiveOk(f, history, start, synced) && Survives(f, now)
    ensures synced <= start + |now.data| <= |history|
    ensures BatchesIn(now.data) == Among(history[start..start + |now.data|])
  {
    var c := |now.data|;
    assert forall i :: 0 <= i < c ==> now.data[i] == Logged(history[start + i]);
    forall b ensures b in BatchesIn(now.data) <==> b in history[start..start + c] {
      if b in BatchesIn(now.data) {
        var x :| x in now.data && x.Logged? && x.batch == b;
        var i :| 0 <= i < c && now.data[i] == x;
        assert history[start..start + c][i] == b;
      }
      if b in history[start..start + c] {
        var i :| 0 <= i < c && history[start..start + c][i] == b;
        assert now.data[i] == Logged(b) && now.data[i] in now.data;
      }
    }
  }

  lemma AmongSplit(history: seq<Batch>, start: nat, k: nat)
    requires start <= k <= |history|
    ensures Among(history[..start]) + Among(history[start..k]) == Among(history[..k])
  {
    assert history[..k] == history[..start] + history[start..k];
  }

  /** The manifest after the cut: the installed version, or the one in flight. */
  lemma ManifestSurvives(was: File, now: File, version: Version, edit: Option<Edit>)
    requires ManifestOk(was, version, edit) && Survives(was, now)
    ensures Replayed(now.data) == version || (edit.Some? && Replayed(now.data) == Applied(version, edit.value))
  {
    if edit.Some? {
      var n := |was.data| - 1;
      if |now.data| == n {
        assert now.data == was.data[..n];
      } else {
        assert now.data == was.data;
      }
    } else {
      assert now.data == was.data;
    }
  }

  lemma PointerSurvives(d: Disk, after: Disk, pointer: nat, manifest: nat)
    requires IsCrash(d, after) && Points(d, pointer, manifest) && after.dir.current == Some(pointer)
    requires manifest in after.dir.linked && manifest in d.files && d.files[manifest].kind.ManifestFile?
    ensures Leads(after, manifest)
  {
    assert Named(after.dir, pointer) && Named(after.dir, manifest);
    assert after.files[pointer].data == [Names(manifest)];
  }

  lemma CoveredAfter(d: Disk, after: Disk, v: Version, active: nat, history: seq<Batch>, start: nat, synced: nat)
    requires IsCrash(d, after) && active in d.files && Linked(d, active)
    requires ActiveOk(d.files[active], history, start, synced)
    requires Covers(d, v, {active}, Among(history[..start])) && v.log.value <= active
    ensures active in after.files && synced <= start + |after.files[active].data| <= |history|
    ensures TablesThere(after, v.tables) && Contents(after, v) == Among(history[..start + |after.files[active].data|])
  {
    CoversCrash(d, after, v, {active}, Among(history[..start]));
    SolidSurvives(d, after, active);
    ActiveSurvives(d.files[active], after.files[active], history, start, synced);
    OneLog(after, v.log.value, active);
  }

  lemma ActiveSurvives(f: File, now: File, history: seq<Batch>, start: nat, synced: nat)
    requires ActiveOk(f, history, start, synced) && Survives(f, now)
    ensures synced <= start + |now.data| <= |history|
    ensures Among(history[..start]) + BatchesIn(now.data) == Among(history[..start + |now.data|])
  {
    BatchesOfPrefix(f, now, history, start, synced);
    AmongSplit(history, start, start + |now.data|);
  }

  lemma OneLog(d: Disk, log: nat, active: nat)
    requires active in d.files && active in d.dir.linked && d.files[active].kind.LogFile? && log <= active
    ensures LogBatches(d.files, Logs(d, log) * {active}) == BatchesIn(d.files[active].data)
  {
    assert Logs(d, log) * {active} == {active};
  }

  lemma UpLeads(s: State, after: Disk)
    requires s.phase.Up? && UpInv(s) && IsCrash(s.disk, after)
    ensures Leads(after, s.phase.manifest)
    ensures var v := Replayed(after.files[s.phase.manifest].data);
            v == s.phase.version || (s.phase.edit.Some? && v == Applied(s.phase.version, s.phase.edit.value))
  {
    var d, p := s.disk, s.phase;
    var n :| 0 <= n <= |d.pending| && after.dir == ApplyAll(d.dir, d.pending[..n]);
    CurrentLasts(d.dir, d.pending, n);
    SolidSurvives(d, after, p.manifest);
    PointerSurvives(d, after, d.dir.current.value, p.manifest);
    ManifestSurvives(d.files[p.manifest], after.files[p.manifest], p.version, if p.logged then p.edit else None);
  }

  lemma UpCrash(s: State, after: Disk)
    requires s.phase.Up? && UpInv(s) && IsCrash(s.disk, after)
    ensures s.synced <= Kept(s, after) <= |s.history|
    ensures Recovers(after, s.phase.manifest, Among(s.history[..Kept(s, after)]))
  {
    var p := s.phase;
    UpLeads(s, after);
    var v := Replayed(after.files[p.manifest].data);
    CoveredAfter(s.disk, after, v, p.active, s.history, p.start, s.synced);
    TablesSurvive(s.disk, after, v.tables);
  }

  lemma PointerCrash(d: Disk, after: Disk, pointer: nat, manifest: nat, version: Version, rows: set<Batch>)
    requires IsCrash(d, after) && after.dir.current == Some(pointer) && Points(d, pointer, manifest)
    requires Solid(d, manifest) && d.files[manifest].kind.ManifestFile? && Replayed(d.files[manifest].data) == version
    requires Covers(d, version, {}, rows)
    ensures Recovers(after, manifest, rows)
  {
    SolidSurvives(d, after, manifest);
    PointerSurvives(d, after, pointer, manifest);
    TablesSurvive(d, after, version.tables);
    CoversCrashWhole(d, after, version, rows);
  }

  lemma TargetCrash(d: Disk, after: Disk, p: Phase, t: Target, rows: set<Batch>)
    requires p.Opening? && p.switch.Some? && TargetOk(d, p, t, rows) && IsCrash(d, after)
    requires after.dir.current == p.switch && t.manifest in after.dir.linked
    ensures Recovers(after, t.manifest, rows)
  {
    PointerSurvives(d, after, p.switch.value, t.manifest);
    assert after.files[t.manifest].data == d.files[t.manifest].data;
    TargetReplays(p.version.tables, t, p.last);
    TablesSurvive(d, after, p.version.tables + t.added);
    CoversCrashWhole(d, after, Version(p.version.tables + t.added, Some(t.log), p.last), rows);
  }

  lemma OpeningCrash(s: State, after: Disk)
    requires s.phase.Opening? && OpeningInv(s) && IsCrash(s.disk, after)
    ensures exists m :: Recovers(after, m, Among(s.history))
  {
    var d, p := s.disk, s.phase;
    var n :| 0 <= n <= |d.pending| && after.dir == ApplyAll(d.dir, d.pending[..n]);
    assert CurrentOk(DirAt(d, n), p);
    if after.dir.current == Some(p.pointer) {
      PointerCrash(d, after, p.pointer, p.manifest, p.version, Among(s.history));
    } else {
      TargetCrash(d, after, p, p.target.value, Among(s.history));
    }
  }

  lemma TargetReplays(tables: set<nat>, t: Target, last: nat)
    ensures Replayed(Snapshot(tables, t.added, t.log, last)) == Version(tables + t.added, Some(t.log), last)
  {
    var data := Snapshot(tables, t.added, t.log, last);
    var first := data[..1];
    assert first == [Change(Edit(tables, {}, None, None))] && first[..0] == [];
    assert Replayed(first) == Version(tables, None, 0);
  }

  lemma DownCrash(s: State, after: Disk)
    requires DownInv(s) && IsCrash(s.disk, after)
    ensures after == s.disk
  {
    var d := s.disk;
    assert after.dir == d.dir;
    forall i | i in d.files ensures i in after.files && after.files[i] == d.files[i] {
      assert Named(d.dir, i);
    }
    assert after.files == d.files;
  }

  lemma DownAfter(d: Disk, after: Disk, history: seq<Batch>, synced: nat, m: nat)
    requires IsCrash(d, after) && Recovers(after, m, Among(history)) && synced <= |history| && InSequence(history)
    ensures Inv(State(after, Down, history, synced))
  {
  }

  /** A cut at any point leaves a prefix of the history that still holds every
      batch acknowledged with sync, and recovery finds exactly it. */
  lemma CrashIsSafe(s: State, after: Disk)
    requires Inv(s) && IsCrash(s.disk, after)
    ensures var t := Took(s, Crash(after));
            && t.history <= s.history && s.synced <= |t.history|
            && Inv(t) && Recovered(after).Some? && Recovered(after).value.batches == Among(t.history)
            && Bounded(Among(t.history), Recovered(after).value.last)
  {
    var t := Took(s, Crash(after));
    assert s.history[..|s.history|] == s.history;
    match s.phase {
      case Up(_, _, _, _, _, _, _, _, _) => UpCrash(s, after);
      case Opening(_, _, _, _, _, _) => OpeningCrash(s, after);
      case Down => DownCrash(s, after);
    }
    var m :| Recovers(after, m, Among(t.history));
    DownAfter(s.disk, after, t.history, t.synced, m);
    RecoversAll(after, m, Among(t.history));
  }

  // ---------------------------------------------- steps of an open database

  /** Same contents, no less of it durable. */
  ghost predicate KeepsFile(d: Disk, e: Disk, id: nat) {
    id in d.files && id in e.files && (e.files[id] == d.files[id] || e.files[id] == Synced(d.files[id]))
  }

  /** Steps that touch only files the invariant does not speak of. */
  lemma UpQuiet(s: State, e: Disk, touched: set<nat>)
    requires s.phase.Up? && UpInv(s) && Calm(s.disk, e, touched)
    requires Sound(e) && (forall t :: Rename(t) !in e.pending) && e.dir.current == s.disk.dir.current
    requires Linked(e, s.phase.manifest) && Linked(e, s.phase.active)
    requires KeepsFile(s.disk, e, s.phase.manifest) && KeepsFile(s.disk, e, s.phase.active)
    requires KeepsFile(s.disk, e, e.dir.current.value)
    requires touched !! s.phase.version.tables && touched !! AllLogs(s.disk.files, s.phase.version.log.value)
    requires s.phase.edit.Some? ==> touched !! s.phase.edit.value.added
    ensures UpInv(s.(disk := e))
  {
    UpCoveredCalm(s.disk, e, s.phase, Among(s.history[..s.phase.start]), touched);
  }

  lemma UpCoveredCalm(d: Disk, e: Disk, p: Phase, before: set<Batch>, touched: set<nat>)
    requires p.Up? && UpCovered(d, p, before) && Calm(d, e, touched)
    requires touched !! p.version.tables && AllLogs(d.files, p.version.log.value) * touched <= {p.active}
    requires p.edit.Some? ==> touched !! p.edit.value.added
    ensures UpCovered(e, p, before)
  {
    CoversCalm(d, e, touched, p.version, {p.active}, before);
    LogsCalm(d, e, touched, p.version.log.value, {p.active});
    if p.edit.Some? {
      SolidTablesCalm(d, e, touched, p.edit.value.added);
      assert touched !! Applied(p.version, p.edit.value).tables;
      CoversCalm(d, e, touched, Applied(p.version, p.edit.value), {p.active}, before);
    }
    NewerCalm(d, e, touched, p.active);
  }

  lemma NewerCalm(d: Disk, e: Disk, touched: set<nat>, log: nat)
    requires Calm(d, e, touched) && NewerEmpty(d.files, log) && AllLogs(d.files, log) * touched <= {log}
    ensures NewerEmpty(e.files, log)
  {
    forall i | i in AllLogs(e.files, log) ensures i == log || Empty(e.files[i]) {
      if i in d.files {
        assert i in AllLogs(d.files, log);
        assert i in touched ==> i in AllLogs(d.files, log) * touched;
      }
    }
  }

  lemma UpCreate(s: State, id: nat, kind: Kind, data: seq<Item>)
    requires s.phase.Up? && UpInv(s) && Writable(s, id, kind) && (kind.LogFile? ==> data == [])
    ensures UpInv(s.(disk := Create(s.disk, id, kind, data)))
  {
    CreateCalm(s.disk, id, kind, data);
    UpQuiet(s, Create(s.disk, id, kind, data), {id});
  }

  lemma UpSyncOne(s: State, id: nat)
    requires s.phase.Up? && UpInv(s) && id in s.disk.files
    ensures UpInv(s.(disk := SyncFile(s.disk, id)))
  {
    SyncFileCalm(s.disk, id);
    UpQuiet(s, SyncFile(s.disk, id), {});
  }

  lemma UpSyncNames(s: State)
    requires s.phase.Up? && UpInv(s)
    ensures UpInv(s.(disk := SyncDirectory(s.disk)))
  {
    SyncDirectoryCalm(s.disk);
    CurrentLasts(s.disk.dir, s.disk.pending, |s.disk.pending|);
    assert s.disk.pending[..|s.disk.pending|] == s.disk.pending;
    UpQuiet(s, SyncDirectory(s.disk), {});
  }

  lemma UpRemove(s: State, id: nat)
    requires s.phase.Up? && UpInv(s) && Enabled(s, Remove(id))
    ensures UpInv(s.(disk := WithOp(s.disk, Unlink(id))))
  {
    var d, p := s.disk, s.phase;
    UnlinkCalm(d, id);
    UpQuiet(s, WithOp(d, Unlink(id)), {id});
  }

  /** Appending to the active log or to the manifest. */
  lemma AppendKeepsCovered(d: Disk, p: Phase, before: set<Batch>, id: nat, item: Item)
    requires p.Up? && UpCovered(d, p, before) && id in d.files && !d.files[id].kind.TableFile?
    requires id == p.active || !d.files[id].kind.LogFile?
    ensures UpCovered(Append(d, id, item), p, before)
  {
    AppendCalm(d, id, item);
    LogNotTable(d, p.version.tables, id);
    if p.edit.Some? {
      LogNotTable(d, p.edit.value.added, id);
    }
    UpCoveredCalm(d, Append(d, id, item), p, before, {id});
  }

  /** The active log grows by one batch. */
  lemma UpWrite(s: State, b: Batch)
    requires s.phase.Up? && UpInv(s) && Enabled(s, Write(b))
    ensures UpInv(Took(s, Write(b)))
  {
    AmongMore(s.history, s.phase.start, b, s.phase.last);
    AppendKeepsCovered(s.disk, s.phase, Among(s.history[..s.phase.start]), s.phase.active, Logged(b));
  }

  lemma AmongMore(history: seq<Batch>, start: nat, b: Batch, last: nat)
    requires start <= |history| && Bounded(Among(history), last) && b.first == last + 1
    ensures var h := history + [b];
            && h[..start] == history[..start] && Among(h[start..]) == Among(history[start..]) + {b}
            && Bounded(Among(h), last + b.count)
  {
    var h := history + [b];
    assert h[start..] == history[start..] + [b];
    assert Among(h) == Among(history) + {b};
  }

  lemma NextInSequence(history: seq<Batch>, b: Batch, last: nat)
    requires InSequence(history) && Bounded(Among(history), last) && b.first == last + 1 && b.count > 0
    ensures InSequence(history + [b])
  {
    forall i | 0 <= i < |history| ensures End(history[i]) <= b.first {
      assert history[i] in Among(history);
    }
  }

  lemma LogNotTable(d: Disk, tables: set<nat>, id: nat)
    requires SolidTables(d, tables) && id in d.files && !d.files[id].kind.TableFile?
    ensures id !in tables
  {
  }

  lemma UpSyncLog(s: State)
    requires s.phase.Up? && UpInv(s)
    ensures UpInv(Took(s, SyncLog))
  {
    UpSyncOne(s, s.phase.active);
  }

  /** An edit about tables that are safe on the disk, with the last sequence
      number given out so far. */
  lemma UpPlan(s: State, edit: Edit)
    requires s.phase.Up? && UpInv(s) && Enabled(s, Plan(edit))
    ensures UpInv(Took(s, Plan(edit)))
  {
    EditCovers(s, edit);
  }

  /** The manifest grows by one record. */
  lemma UpLogEdit(s: State)
    requires s.phase.Up? && UpInv(s) && Enabled(s, LogEdit)
    ensures UpInv(Took(s, LogEdit))
  {
    var d, p, edit := s.disk, s.phase, s.phase.edit.value;
    var data := d.files[p.manifest].data;
    assert (data + [Change(edit)])[..|data|] == data;
    AppendKeepsCovered(d, p, Among(s.history[..p.start]), p.manifest, Change(edit));
  }

  lemma TableBatchesUnion(files: map<nat, File>, a: set<nat>, b: set<nat>)
    ensures TableBatches(files, a + b) == TableBatches(files, a) + TableBatches(files, b)
  {
  }

  lemma NoLogBatches(files: map<nat, File>, logs: set<nat>)
    requires forall i :: i in logs ==> i in files && files[i].data == []
    ensures LogBatches(files, logs) == {}
  {
  }

  /** The version a record leads to holds the same batches as the one before. */
  lemma EditCovers(s: State, edit: Edit)
    requires s.phase.Up? && UpInv(s) && SolidTables(s.disk, edit.added) && edit.last == Some(s.phase.last)
    requires FlushEdit(s, edit) || CompactionEdit(s, edit)
    ensures Covers(s.disk, Applied(s.phase.version, edit), {s.phase.active}, Among(s.history[..s.phase.start]))
  {
    var d, p := s.disk, s.phase;
    var v := p.version;
    if CompactionEdit(s, edit) {
      assert v.tables == (v.tables - edit.removed) + edit.removed;
      TableBatchesUnion(d.files, v.tables - edit.removed, edit.removed);
      TableBatchesUnion(d.files, v.tables - edit.removed, edit.added);
    } else {
      assert v.tables - edit.removed == v.tables;
      TableBatchesUnion(d.files, v.tables, edit.added);
      NoLogBatches(d.files, AllLogs(d.files, p.active) - {p.active});
    }
    assert TableBatches(d.files, Applied(v, edit).tables) <= Among(s.history[..p.start]);
    assert Among(s.history[..p.start]) <= Among(s.history);
  }

  lemma UpInstall(s: State)
    requires s.phase.Up? && UpInv(s) && Enabled(s, Install)
    ensures UpInv(Took(s, Install))
  {
    var d, p, e := s.disk, s.phase, s.phase.edit.value;
    var f := d.files[p.manifest];
    assert Replayed(f.data) == Applied(p.version, e);
    if e.log == Some(p.active) {
      NoLogBatches(d.files, AllLogs(d.files, p.active) - {p.active});
    }
  }

  /** The full log and the empty one change places. */
  lemma UpRotate(s: State, id: nat)
    requires s.phase.Up? && UpInv(s) && Enabled(s, Rotate(id))
    ensures UpInv(Took(s, Rotate(id)))
  {
    var d, p, h := s.disk, s.phase, s.history;
    assert h[|h|..] == [] && h[..|h|] == h && h[p.start..|h|] == h[p.start..];
    AmongSplit(h, p.start, |h|);
    ActiveBatches(s);
    RotateCovers(d, p.version, p.active, id, Among(h[..p.start]), Among(h[p.start..]));
    if p.edit.Some? {
      RotateCovers(d, Applied(p.version, p.edit.value), p.active, id, Among(h[..p.start]), Among(h[p.start..]));
    }
    RotateLogs(d, p.version.log.value, p.active, id);
  }

  lemma ActiveBatches(s: State)
    requires s.phase.Up? && UpInv(s)
    ensures BatchesIn(s.disk.files[s.phase.active].data) == Among(s.history[s.phase.start..])
  {
    var f := s.disk.files[s.phase.active];
    BatchesOfPrefix(f, f.(durable := |f.data|), s.history, s.phase.start, s.synced);
    assert s.history[s.phase.start..|s.history|] == s.history[s.phase.start..];
  }

  lemma RotateLogs(d: Disk, log: nat, active: nat, id: nat)
    requires active in d.files && d.files[active].kind.LogFile? && log <= active < id && id in d.files
    requires d.files[id].data == []
    ensures LogBatches(d.files, AllLogs(d.files, log) - {id}) ==
              LogBatches(d.files, AllLogs(d.files, log) - {active}) + BatchesIn(d.files[active].data)
  {
    assert BatchesIn(d.files[id].data) == {};
  }

  lemma RotateCovers(d: Disk, v: Version, active: nat, id: nat, before: set<Batch>, own: set<Batch>)
    requires Covers(d, v, {active}, before) && v.log.value <= active < id
    requires Solid(d, active) && d.files[active].kind.LogFile? && BatchesIn(d.files[active].data) == own
    requires id in d.files && d.files[id].data == []
    ensures Covers(d, v, {id}, before + own)
  {
    RotateLogs(d, v.log.value, active, id);
  }

  // ----------------------------------------------------- steps of an opening

  ghost predicate NamesOk(d: Disk, p: Phase)
    requires p.Opening?
  {
    && (forall i :: Unlink(i) !in d.pending)
    && (forall t: nat :: Rename(t) in d.pending ==> p.switch == Some(t))
    && (forall n :: 0 <= n <= |d.pending| ==> CurrentOk(DirAt(d, n), p))
  }

  /** No log is among them. */
  ghost predicate NoLogs(d: Disk, ids: set<nat>) {
    forall i :: i in ids && i in d.files ==> !d.files[i].kind.LogFile?
  }

  lemma TargetCalm(d: Disk, e: Disk, p: Phase, t: Target, rows: set<Batch>, touched: set<nat>)
    requires p.Opening? && TargetOk(d, p, t, rows) && Calm(d, e, touched) && NoLogs(d, touched)
    requires touched !! p.version.tables + t.added
    requires KeepsFile(d, e, t.manifest) && (p.switch.Some? ==> KeepsFile(d, e, p.switch.value))
    requires Coming(e, t.manifest) && Coming(e, t.log)
    ensures TargetOk(e, p, t, rows)
  {
    CoversCalm(d, e, touched, Version(p.version.tables + t.added, Some(t.log), p.last), {}, rows);
    NewerCalm(d, e, touched, t.log);
  }

  /** Steps that touch only spare files. */
  lemma OpeningQuiet(s: State, e: Disk, touched: set<nat>)
    requires s.phase.Opening? && OpeningInv(s) && Calm(s.disk, e, touched) && Sound(e) && NamesOk(e, s.phase)
    requires NoLogs(s.disk, touched) && forall i :: i in touched ==> Spare(s, i)
    requires forall i :: i in s.disk.files && i !in touched ==> KeepsFile(s.disk, e, i)
    requires s.phase.target.Some? ==> Coming(e, s.phase.target.value.manifest) && Coming(e, s.phase.target.value.log)
    ensures OpeningInv(s.(disk := e))
  {
    var d, p := s.disk, s.phase;
    CoversCalm(d, e, touched, p.version, {}, Among(s.history));
    if p.target.Some? {
      TargetCalm(d, e, p, p.target.value, Among(s.history), touched);
    }
  }

  lemma DirAtAppend(d: Disk, op: NameOp, n: nat)
    requires n <= |d.pending| + 1
    ensures DirAt(WithOp(d, op), n) == if n <= |d.pending| then DirAt(d, n) else Apply(DirAt(d, |d.pending|), op)
  {
    var ops := d.pending + [op];
    if n <= |d.pending| {
      assert ops[..n] == d.pending[..n];
    } else {
      assert ops[..n] == ops && d.pending[..|d.pending|] == d.pending;
      ApplyAppend(d.dir, d.pending, op);
    }
  }

  lemma OpeningCreate(s: State, id: nat, kind: Kind, data: seq<Item>)
    requires s.phase.Opening? && OpeningInv(s) && Writable(s, id, kind) && (kind.LogFile? ==> data == [])
    ensures OpeningInv(s.(disk := Create(s.disk, id, kind, data)))
  {
    var d, p, e := s.disk, s.phase, Create(s.disk, id, kind, data);
    CreateCalm(d, id, kind, data);
    forall n | 0 <= n <= |e.pending| ensures CurrentOk(DirAt(e, n), p) {
      DirAtAppend(d, Link(id), n);
      assert DirAt(e, n) == DirAt(WithOp(d, Link(id)), n);
      assert CurrentOk(DirAt(d, if n <= |d.pending| then n else |d.pending|), p);
    }
    assert forall op :: op in d.pending ==> op in e.pending;
    OpeningQuiet(s, e, {id});
  }

  lemma OpeningSyncOne(s: State, id: nat)
    requires s.phase.Opening? && OpeningInv(s) && id in s.disk.files
    ensures OpeningInv(s.(disk := SyncFile(s.disk, id)))
  {
    var d, p, e := s.disk, s.phase, SyncFile(s.disk, id);
    SyncFileCalm(d, id);
    forall n | 0 <= n <= |e.pending| ensures CurrentOk(DirAt(e, n), p) {
      assert DirAt(e, n) == DirAt(d, n);
    }
    OpeningQuiet(s, e, {});
  }

  lemma {:induction false} LinkLands(dir: Dir, ops: seq<NameOp>, id: nat)
    requires id in dir.linked || Link(id) in ops
    requires Unlink(id) !in ops && Rename(id) !in ops
    ensures id in ApplyAll(dir, ops).linked
    decreases |ops|
  {
    if ops != [] {
      var front, last := ops[..|ops| - 1], ops[|ops| - 1];
      assert last in ops && ops == front + [last];
      if last != Link(id) {
        LinkLands(dir, front, id);
      }
    }
  }

  lemma NameLands(d: Disk, id: nat, p: Phase)
    requires p.Opening? && NamesOk(d, p) && Coming(d, id) && p.switch != Some(id)
    ensures Coming(SyncDirectory(d), id) && id in ApplyAll(d.dir, d.pending).linked
  {
    LinkLands(d.dir, d.pending, id);
  }

  lemma OpeningSyncNames(s: State)
    requires s.phase.Opening? && OpeningInv(s)
    ensures OpeningInv(s.(disk := SyncDirectory(s.disk)))
  {
    var d, p, e := s.disk, s.phase, SyncDirectory(s.disk);
    SyncDirectoryCalm(d);
    assert d.pending[..|d.pending|] == d.pending;
    assert CurrentOk(DirAt(d, |d.pending|), p);
    assert e.pending[..0] == [] && DirAt(e, 0) == DirAt(d, |d.pending|);
    if p.target.Some? {
      NameLands(d, p.target.value.manifest, p);
      NameLands(d, p.target.value.log, p);
    }
    OpeningQuiet(s, e, {});
  }

  // ------------------------------------------------------- the opening's own

  /** The fresh manifest and the tables it adds hold what the old one and the
      logs did. */
  lemma OpeningWriteManifest(s: State, id: nat, added: set<nat>, log: nat)
    requires s.phase.Opening? && OpeningInv(s) && Enabled(s, WriteManifest(id, added, log))
    ensures OpeningInv(Took(s, WriteManifest(id, added, log)))
  {
    var d, p := s.disk, s.phase;
    var data := Snapshot(p.version.tables, added, log, p.last);
    var e := Create(d, id, ManifestFile, data);
    OpeningCreate(s, id, ManifestFile, data);
    TargetCovered(s, id, added, log, e);
    assert e.pending[|d.pending|] == Link(id);
    assert forall op :: op in d.pending ==> op in e.pending;
    TargetNames(s, e, p.(target := Some(Target(id, added, log))));
  }

  lemma TargetCovered(s: State, id: nat, added: set<nat>, log: nat, e: Disk)
    requires s.phase.Opening? && Covers(s.disk, s.phase.version, {}, Among(s.history))
    requires Bounded(Among(s.history), s.phase.last)
    requires Enabled(s, WriteManifest(id, added, log))
    requires e == Create(s.disk, id, ManifestFile, Snapshot(s.phase.version.tables, added, log, s.phase.last))
    ensures Covers(e, Version(s.phase.version.tables + added, Some(log), s.phase.last), {}, Among(s.history))
    ensures NewerEmpty(e.files, log)
  {
    var d, p := s.disk, s.phase;
    var v := Version(p.version.tables + added, Some(log), p.last);
    CreateCalm(d, id, ManifestFile, Snapshot(p.version.tables, added, log, p.last));
    TableBatchesUnion(d.files, p.version.tables, added);
    NoLogBatches(d.files, AllLogs(d.files, log) - {});
    assert AllLogs(d.files, p.version.log.value) - {} == AllLogs(d.files, p.version.log.value);
    assert Covers(d, v, {}, Among(s.history));
    assert {id} !! v.tables;
    CoversCalm(d, e, {id}, v, {}, Among(s.history));
    NewerCalm(d, e, {id}, log);
  }

  /** With no switch yet, naming a target changes nothing about CURRENT. */
  lemma TargetNames(s: State, e: Disk, q: Phase)
    requires s.phase.Opening? && s.phase.switch.None? && OpeningInv(s.(disk := e)) && q.Opening?
    requires q.pointer == s.phase.pointer && q.switch.None?
    ensures forall n :: 0 <= n <= |e.pending| ==> CurrentOk(DirAt(e, n), q)
  {
    forall n | 0 <= n <= |e.pending| ensures CurrentOk(DirAt(e, n), q) {
      assert CurrentOk(DirAt(e, n), s.phase);
    }
  }

  /** The rename of a durable pointer to a durable manifest whose own name is
      earlier in the journal. */
  lemma OpeningSwitch(s: State, id: nat)
    requires s.phase.Opening? && OpeningInv(s) && Enabled(s, Switch(id))
    ensures OpeningInv(Took(s, Switch(id)))
  {
    var d, p := s.disk, s.phase;
    var e, q := WithOp(d, Rename(id)), p.(switch := Some(id));
    var t := p.target.value;
    RenameCalm(d, id);
    SwitchCurrent(s, id);
    RenameCovers(d, id, p.version, Among(s.history));
    RenameCovers(d, id, Version(p.version.tables + t.added, Some(t.log), p.last), Among(s.history));
    assert forall op :: op in d.pending ==> op in e.pending;
  }

  lemma RenameCovers(d: Disk, id: nat, v: Version, rows: set<Batch>)
    requires Covers(d, v, {}, rows) && id in d.files && d.files[id].kind.TempFile?
    ensures Covers(WithOp(d, Rename(id)), v, {}, rows)
  {
    RenameCalm(d, id);
    LogNotTable(d, v.tables, id);
    CoversCalm(d, WithOp(d, Rename(id)), {id}, v, {}, rows);
  }

  lemma SwitchCurrent(s: State, id: nat)
    requires s.phase.Opening? && OpeningInv(s) && Enabled(s, Switch(id))
    ensures forall n :: 0 <= n <= |s.disk.pending| + 1 ==>
              CurrentOk(DirAt(WithOp(s.disk, Rename(id)), n), s.phase.(switch := Some(id)))
  {
    var d, p := s.disk, s.phase;
    var e, q := WithOp(d, Rename(id)), p.(switch := Some(id));
    assert d.pending[..|d.pending|] == d.pending;
    NameLands(d, p.target.value.manifest, p);
    forall n | 0 <= n <= |d.pending| + 1 ensures CurrentOk(DirAt(e, n), q) {
      DirAtAppend(d, Rename(id), n);
      if n <= |d.pending| {
        assert CurrentOk(DirAt(d, n), p);
      }
    }
  }

  /** The switch has landed: the opening is done. */
  lemma OpeningFinish(s: State)
    requires s.phase.Opening? && OpeningInv(s) && Enabled(s, Finish) && s.synced <= |s.history|
    ensures UpInv(Took(s, Finish))
  {
    var d, p, h := s.disk, s.phase, s.history;
    var t := p.target.value;
    assert h[..|h|] == h && h[|h|..] == [];
    assert DirAt(d, 0) == d.dir;
    assert CurrentOk(DirAt(d, 0), p);
    TargetReplays(p.version.tables, t, p.last);
    NoLogBatches(d.files, AllLogs(d.files, t.log) - {t.log});
    NoLogBatches(d.files, AllLogs(d.files, t.log) - {});
  }

  lemma SameManifest(d: Disk, m: nat, n: nat)
    requires Leads(d, m) && Leads(d, n)
    ensures m == n
  {
    assert [Names(m)] == [Names(n)];
    assert [Names(m)][0] == [Names(n)][0];
  }

  /** A settled disk that recovers is one whose version and logs are safe. */
  lemma DownBegin(s: State, pointer: nat, manifest: nat)
    requires DownInv(s) && Enabled(s, Begin(pointer, manifest))
    ensures OpeningInv(Took(s, Begin(pointer, manifest)))
  {
    var d := s.disk;
    var v := Replayed(d.files[manifest].data);
    var m :| Recovers(d, m, Among(s.history));
    RecoveredFrom(d, manifest);
    RecoversAll(d, m, Among(s.history));
    SameManifest(d, m, manifest);
    assert AllLogs(d.files, v.log.value) - {} == Logs(d, v.log.value) by {
      forall i | i in AllLogs(d.files, v.log.value) ensures i in Logs(d, v.log.value) {
        assert Named(d.dir, i);
      }
    }
    assert d.pending[..0] == [] && DirAt(d, 0) == d.dir;
  }
}
