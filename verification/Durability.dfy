/** The commit protocol, as steps on the disk: writes and syncs, log rotation,
    table flushes and compactions, manifest edits, the CURRENT switch, power
    cuts at any point and recovery, itself open to being cut.

    `history` is every batch handed to the log since the database was made, in
    log order, less what a cut took away; `synced` of them were acknowledged
    with sync.  A batch takes the sequence numbers after the last one given out,
    and an opening goes on from the last one it finds. */
module Durability {
  import opened Entries
  import opened Disks

  ghost function Among(h: seq<Batch>): set<Batch> {
    set b | b in h
  }

  /** Each batch is numbered after the ones before it. */
  ghost predicate InSequence(h: seq<Batch>) {
    && (forall i :: 0 <= i < |h| ==> h[i].count > 0)
    && forall i, j :: 0 <= i < j < |h| ==> End(h[i]) <= h[j].first
  }

  /** The manifest an opening database is about to switch to. */
  datatype Target = Target(manifest: nat, added: set<nat>, log: nat)

  datatype Phase =
    | Down
    | Opening(pointer: nat, manifest: nat, version: Version, target: Option<Target>, switch: Option<nat>, last: nat)
    | Up(manifest: nat, version: Version, active: nat, mem: set<Batch>, imm: Option<set<Batch>>,
         edit: Option<Edit>, logged: bool, start: nat, last: nat)

  /** In Up, `imm` is the full memtable waiting to be flushed, `edit` the
      manifest record made or, once `logged`, in flight, and the active log
      begins at history[start].  `last` is the last sequence number given out. */
  datatype State = State(disk: Disk, phase: Phase, history: seq<Batch>, synced: nat)

  // -------------------------------------------------------------------- steps

  /** Nothing in play needs what this name stands for, if it stands for
      anything: a stray of an opening that was cut, or a table of no version. */
  ghost predicate Spare(s: State, id: nat) {
    var p := s.phase;
    match p
    case Down => false
    case Opening(_, _, _, _, _, _) =>
      && id != p.pointer && id != p.manifest && id !in p.version.tables && p.switch != Some(id)
      && (p.target.Some? ==> id != p.target.value.manifest && id !in p.target.value.added)
    case Up(_, _, _, _, _, _, _, _, _) =>
      && s.disk.dir.current != Some(id) && id != p.manifest && id !in p.version.tables
      && (p.edit.Some? ==> id !in p.edit.value.added)
  }

  /** The name may be opened for writing: new, or standing for a file of its
      kind that can be written over.  Logs are always new. */
  ghost predicate Writable(s: State, id: nat, kind: Kind) {
    Spare(s, id) && (id in s.disk.files ==> s.disk.files[id].kind == kind && !kind.LogFile?)
  }

  ghost predicate Solid(d: Disk, id: nat) {
    id in d.files && Linked(d, id) && d.files[id] == Synced(d.files[id])
  }

  /** Written, synced and named before a manifest record may mention them. */
  ghost predicate SolidTables(d: Disk, tables: set<nat>) {
    forall i :: i in tables ==> Solid(d, i) && IsTable(d.files[i])
  }

  datatype Step =
    | NewTable(id: nat, rows: set<Batch>)
    | NewLog(id: nat)
    | SyncOne(id: nat)
    | SyncNames
    | Write(batch: Batch)
    | SyncLog
    | Rotate(id: nat)
    | Plan(edit: Edit)
    | LogEdit
    | Install
    | Remove(id: nat)
    | Begin(pointer: nat, manifest: nat)
    | WriteManifest(id: nat, added: set<nat>, log: nat)
    | NewTemp(id: nat)
    | Switch(id: nat)
    | Finish
    | Crash(after: Disk)

  ghost predicate FlushEdit(s: State, e: Edit)
    requires s.phase.Up?
  {
    && s.phase.imm.Some? && e.removed == {} && e.log == Some(s.phase.active)
    && TableBatches(s.disk.files, e.added) == s.phase.imm.value
  }

  ghost predicate CompactionEdit(s: State, e: Edit)
    requires s.phase.Up?
  {
    && e.log == s.phase.version.log && e.removed <= s.phase.version.tables && e.added !! e.removed
    && TableBatches(s.disk.files, e.added) == TableBatches(s.disk.files, e.removed)
  }

  ghost predicate Enabled(s: State, step: Step) {
    var d, p := s.disk, s.phase;
    match step
    case NewTable(id, _) => Writable(s, id, TableFile)
    case NewLog(id) => Writable(s, id, LogFile)
    case SyncOne(id) => !p.Down? && id in d.files
    case SyncNames => !p.Down?
    case Write(b) => p.Up? && p.active in d.files && b.count > 0 && b.first == p.last + 1
    case SyncLog => p.Up? && p.active in d.files
    case Rotate(id) =>
      && p.Up? && p.imm.None? && p.active < id && p.active in d.files
      && d.files[p.active] == Synced(d.files[p.active])
      && id in d.files && d.files[id].kind.LogFile? && d.files[id].data == [] && Linked(d, id)
    case Plan(e) =>
      && p.Up? && p.edit.None? && e.last == Some(p.last)
      && SolidTables(d, e.added) && (FlushEdit(s, e) || CompactionEdit(s, e))
    case LogEdit => p.Up? && p.edit.Some? && !p.logged && p.manifest in d.files
    case Install =>
      p.Up? && p.edit.Some? && p.logged && p.manifest in d.files && d.files[p.manifest] == Synced(d.files[p.manifest])
    case Remove(id) =>
      && p.Up? && id in d.files && p.version.log.Some? && id != p.manifest && d.dir.current != Some(id)
      && (d.files[id].kind.LogFile? ==> id < p.version.log.value)
      && (d.files[id].kind.TableFile? ==> id !in p.version.tables && (p.edit.Some? ==> id !in p.edit.value.added))
    case Begin(pointer, manifest) =>
      p.Down? && d.dir.current == Some(pointer) && Leads(d, manifest) && Recovered(d).Some?
    case WriteManifest(id, added, log) =>
      && p.Opening? && p.target.None? && Writable(s, id, ManifestFile) && p.version.log.Some?
      && SolidTables(d, added) && TableBatches(d.files, added) ==
          LogBatches(d.files, AllLogs(d.files, p.version.log.value))
      && log in d.files && d.files[log].kind.LogFile? && Coming(d, log)
      && (forall i :: i in d.files && d.files[i].kind.LogFile? && log <= i ==> Empty(d.files[i]))
    case NewTemp(id) => p.Opening? && p.target.Some? && Writable(s, id, TempFile)
    case Switch(id) =>
      && p.Opening? && p.target.Some? && p.switch.None? && p.target.value.manifest in d.files
      && d.files[p.target.value.manifest] == Synced(d.files[p.target.value.manifest])
      && Points(d, id, p.target.value.manifest) && id != p.pointer
    case Finish => p.Opening? && p.target.Some? && p.switch.Some? && d.dir.current == p.switch && d.pending == []
    case Crash(after) => IsCrash(d, after)
  }

  /** A fresh manifest: the tables there were, and the edit of the opening. */
  function Snapshot(tables: set<nat>, added: set<nat>, log: nat, last: nat): seq<Item> {
    [Change(Edit(tables, {}, None, None)), Change(Edit(added, {}, Some(log), Some(last)))]
  }

  /** Every log not below a number, whether or not its name has landed. */
  ghost function AllLogs(files: map<nat, File>, log: nat): set<nat> {
    set i | i in files && files[i].kind.LogFile? && log <= i
  }

  /** How much of the history a cut leaves: all but what the active log lost. */
  ghost function Kept(s: State, after: Disk): nat {
    if s.phase.Up? && s.phase.active in after.files then s.phase.start + |after.files[s.phase.active].data|
        else |s.history|
  }

  ghost function Took(s: State, step: Step): State
    requires Enabled(s, step)
  {
    var d, p := s.disk, s.phase;
    match step
    case NewTable(id, rows) => s.(disk := Create(d, id, TableFile, [Rows(rows)]))
    case NewLog(id) => s.(disk := Create(d, id, LogFile, []))
    case SyncOne(id) => s.(disk := SyncFile(d, id))
    case SyncNames => s.(disk := SyncDirectory(d))
    case Write(b) =>
      s.(disk := Append(d, p.active, Logged(b)), history := s.history + [b],
         phase := p.(mem := p.mem + {b}, last := p.last + b.count))
    case SyncLog => s.(disk := SyncFile(d, p.active), synced := |s.history|)
    case Rotate(id) =>
      s.(phase := p.(active := id, mem := {}, imm := Some(p.mem), start := |s.history|))
    case Plan(e) => s.(phase := p.(edit := Some(e), logged := false))
    case LogEdit => s.(disk := Append(d, p.manifest, Change(p.edit.value)), phase := p.(logged := true))
    case Install =>
      var e := p.edit.value;
      var q := p.(version := Applied(p.version, e), edit := None, logged := false);
      s.(phase := if e.log == Some(p.active) && p.imm.Some? then q.(imm := None) else q)
    case Remove(id) => s.(disk := WithOp(d, Unlink(id)))
    case Begin(pointer, manifest) =>
      s.(phase := Opening(pointer, manifest, Replayed(d.files[manifest].data), None, None, Recovered(d).value.last))
    case WriteManifest(id, added, log) =>
      s.(disk := Create(d, id, ManifestFile, Snapshot(p.version.tables, added, log, p.last)),
         phase := p.(target := Some(Target(id, added, log))))
    case NewTemp(id) => s.(disk := Create(d, id, TempFile, [Names(p.target.value.manifest)]))
    case Switch(id) => s.(disk := WithOp(d, Rename(id)), phase := p.(switch := Some(id)))
    case Finish =>
      var f, n := p.target.value, |s.history|;
      s.(phase := Up(f.manifest, Version(p.version.tables + f.added, Some(f.log), p.last), f.log, {}, None, None,
          false, n, p.last))
    case Crash(after) =>
      var k := Kept(s, after);
      State(after, Down, if k <= |s.history| then s.history[..k] else s.history, s.synced)
  }

  // ---------------------------------------------------------------- invariant

  ghost predicate Empty(f: File) {
    f.data == [] && f.before.None?
  }

  /** Whatever a cut leaves of the files not in `except`, this version and its
      logs hold exactly these batches. */
  ghost predicate Covers(d: Disk, v: Version, except: set<nat>, rows: set<Batch>) {
    && v.log.Some? && SolidTables(d, v.tables) && Bounded(TableBatches(d.files, v.tables), v.last)
    && (forall i :: i in AllLogs(d.files, v.log.value) - except ==> Solid(d, i) || Empty(d.files[i]))
    && TableBatches(d.files, v.tables) + LogBatches(d.files, AllLogs(d.files, v.log.value) - except) == rows
  }

  /** The file CURRENT is, or may become, names this manifest durably. */
  ghost predicate Points(d: Disk, pointer: nat, manifest: nat) {
    && pointer in d.files && d.files[pointer].kind.TempFile?
    && d.files[pointer].data == [Names(manifest)] && d.files[pointer] == Synced(d.files[pointer])
  }

  ghost predicate Sound(d: Disk) {
    forall i :: i in d.files ==> d.files[i].durable <= |d.files[i].data|
  }

  ghost predicate DownInv(s: State) {
    && s.disk.pending == []
    && (forall i :: i in s.disk.files ==> s.disk.files[i] == Synced(s.disk.files[i]) && Named(s.disk.dir, i))
    && exists m :: Recovers(s.disk, m, Among(s.history))
  }

  /** The directory after the first n pending changes. */
  ghost function DirAt(d: Disk, n: nat): Dir
    requires n <= |d.pending|
  {
    ApplyAll(d.dir, d.pending[..n])
  }

  /** The manifest record in flight, if any, is the last one; all before it are
      durable and add up to the installed version. */
  ghost predicate ManifestOk(f: File, version: Version, edit: Option<Edit>) {
    && f.kind.ManifestFile? && f.before.None?
    && match edit
       case None => f.durable == |f.data| && Replayed(f.data) == version
       case Some(e) =>
         && 0 < |f.data| && f.data[|f.data| - 1] == Change(e) && |f.data| - 1 <= f.durable <= |f.data|
         && Replayed(f.data[..|f.data| - 1]) == version
  }

  /** The active log holds the history from `start`, the first `synced` of which
      are durable. */
  ghost predicate ActiveOk(f: File, history: seq<Batch>, start: nat, synced: nat) {
    && f.kind.LogFile? && f.before.None? && start + |f.data| == |history|
    && (forall i :: 0 <= i < |f.data| ==> f.data[i] == Logged(history[start + i]))
    && synced <= start + f.durable && f.durable <= |f.data|
  }

  ghost predicate NewerEmpty(files: map<nat, File>, log: nat) {
    forall i :: i in AllLogs(files, log) ==> i == log || Empty(files[i])
  }

  ghost predicate EditOk(d: Disk, p: Phase, e: Edit)
    requires p.Up?
  {
    && SolidTables(d, e.added)
    && (e.log == p.version.log || (e.log == Some(p.active) && p.imm.Some?))
  }

  /** What came before the active log is in the installed version and its logs,
      and in the version that the edit leads to. */
  ghost predicate UpCovered(d: Disk, p: Phase, before: set<Batch>)
    requires p.Up?
  {
    && p.version.log.Some? && p.version.log.value <= p.active && NewerEmpty(d.files, p.active)
    && Covers(d, p.version, {p.active}, before)
    && (p.edit.Some? ==> EditOk(d, p, p.edit.value) && Covers(d, Applied(p.version, p.edit.value), {p.active}, before))
    && LogBatches(d.files, AllLogs(d.files, p.version.log.value) - {p.active}) ==
        (if p.imm.Some? then p.imm.value else {})
  }

  ghost predicate UpInv(s: State)
    requires s.phase.Up?
  {
    var d, p := s.disk, s.phase;
    && Sound(d) && (forall t :: Rename(t) !in d.pending)
    && d.dir.current.Some? && Points(d, d.dir.current.value, p.manifest)
    && p.manifest in d.files && Linked(d, p.manifest)
    && ManifestOk(d.files[p.manifest], p.version, if p.logged then p.edit else None)
    && (p.logged ==> p.edit.Some?) && Bounded(Among(s.history), p.last)
    && p.active in d.files && Linked(d, p.active) && ActiveOk(d.files[p.active], s.history, p.start, s.synced)
    && p.mem == Among(s.history[p.start..])
    && UpCovered(d, p, Among(s.history[..p.start]))
  }

  /** While a database opens, CURRENT is the old pointer, or the new one with its
      manifest's name before it in the journal. */
  ghost predicate CurrentOk(dir: Dir, p: Phase)
    requires p.Opening?
  {
    || dir.current == Some(p.pointer)
    || (p.switch.Some? && p.target.Some? && dir.current == p.switch && p.target.value.manifest in dir.linked)
  }

  /** Its name is there, or will be with the next directory sync. */
  ghost predicate Coming(d: Disk, id: nat) {
    id in d.dir.linked || Link(id) in d.pending
  }

  ghost predicate TargetOk(d: Disk, p: Phase, t: Target, rows: set<Batch>)
    requires p.Opening?
  {
    && t.manifest in d.files && d.files[t.manifest].kind.ManifestFile?
    && d.files[t.manifest].data == Snapshot(p.version.tables, t.added, t.log, p.last)
    && Coming(d, t.manifest) && Coming(d, t.log)
    && t.log in d.files && d.files[t.log].kind.LogFile? && Empty(d.files[t.log]) && NewerEmpty(d.files, t.log)
    && Covers(d, Version(p.version.tables + t.added, Some(t.log), p.last), {}, rows)
    && (p.switch.Some? ==> Points(d, p.switch.value, t.manifest) && d.files[t.manifest] == Synced(d.files[t.manifest]))
  }

  ghost predicate OpeningInv(s: State)
    requires s.phase.Opening?
  {
    var d, p := s.disk, s.phase;
    && Sound(d) && (forall i :: Unlink(i) !in d.pending)
    && (forall t: nat :: Rename(t) in d.pending ==> p.switch == Some(t))
    && (forall n :: 0 <= n <= |d.pending| ==> CurrentOk(DirAt(d, n), p))
    && Points(d, p.pointer, p.manifest) && Solid(d, p.manifest) && d.files[p.manifest].kind.ManifestFile?
    && Replayed(d.files[p.manifest].data) == p.version
    && Covers(d, p.version, {}, Among(s.history)) && Bounded(Among(s.history), p.last)
    && (p.switch.Some? ==> p.target.Some?)
    && (p.target.Some? ==> TargetOk(d, p, p.target.value, Among(s.history)))
  }

  ghost predicate Inv(s: State) {
    && s.synced <= |s.history| && InSequence(s.history)
    && match s.phase
       case Down => DownInv(s)
       case Opening(_, _, _, _, _, _) => OpeningInv(s)
       case Up(_, _, _, _, _, _, _, _, _) => UpInv(s)
  }
}
