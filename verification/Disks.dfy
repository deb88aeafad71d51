/** The disk as a power cut sees it, and what recovery reads from one.

    A file is a durable prefix and a tail the kernel still holds; a cut keeps
    the prefix and any length of the tail, each file's independently.  A file
    written over may show its old contents in full until it is next synced.
    Names land in order: a cut keeps a prefix of the name changes not yet
    committed, and syncing the directory commits them all.  Logs and manifests
    are whole records, which is what the log reader delivers of one that was
    cut.

    A file goes by its name, a kind and a number, told here by one number: the
    kind that goes with a name never changes, and logs compare as their numbers
    do. */
module Disks {
  import opened Entries

  /** One log record: `count` entries numbered from `first`. */
  datatype Batch = Batch(first: nat, count: nat, contents: Bytes)

  function End(b: Batch): nat {
    b.first + b.count
  }

  /** Every entry of these batches has a number at or below `last`. */
  ghost predicate Bounded(batches: set<Batch>, last: nat) {
    forall b :: b in batches ==> End(b) <= last + 1
  }

  datatype Kind = LogFile | TableFile | ManifestFile | TempFile

  /** One manifest record: tables added and removed, the log number below which
      logs are no longer needed, and the last sequence number given out. */
  datatype Edit = Edit(added: set<nat>, removed: set<nat>, log: Option<nat>, last: Option<nat>)

  datatype Item = Logged(batch: Batch) | Rows(batches: set<Batch>) | Change(edit: Edit) | Names(manifest: nat)

  /** `before` is what the file held when it was written over, until a sync. */
  datatype File = File(kind: Kind, data: seq<Item>, durable: nat, before: Option<seq<Item>>)

  /** A file number linked into the directory or removed from it, or a
      temporary file renamed over CURRENT. */
  datatype NameOp = Link(id: nat) | Unlink(id: nat) | Rename(temp: nat)

  datatype Dir = Dir(linked: set<nat>, current: Option<nat>)

  datatype Disk = Disk(files: map<nat, File>, dir: Dir, pending: seq<NameOp>)

  // ------------------------------------------------------------- operations

  function Apply(dir: Dir, op: NameOp): Dir {
    match op
    case Link(id) => dir.(linked := dir.linked + {id})
    case Unlink(id) => dir.(linked := dir.linked - {id})
    case Rename(temp) => Dir(dir.linked - {temp}, Some(temp))
  }

  function ApplyAll(dir: Dir, ops: seq<NameOp>): Dir {
    if ops == [] then dir else Apply(ApplyAll(dir, ops[..|ops| - 1]), ops[|ops| - 1])
  }

  /** What a cut may still show of a file that is being written over. */
  function Overwritten(files: map<nat, File>, id: nat): Option<seq<Item>> {
    if id !in files then None else if files[id].before.Some? then files[id].before else Some(files[id].data)
  }

  function Create(d: Disk, id: nat, kind: Kind, data: seq<Item>): Disk {
    d.(files := d.files[id := File(kind, data, 0, Overwritten(d.files, id))], pending := d.pending + [Link(id)])
  }

  function Synced(f: File): File {
    f.(durable := |f.data|, before := None)
  }

  function Append(d: Disk, id: nat, item: Item): Disk
    requires id in d.files
  {
    d.(files := d.files[id := d.files[id].(data := d.files[id].data + [item])])
  }

  function SyncFile(d: Disk, id: nat): Disk
    requires id in d.files
  {
    d.(files := d.files[id := Synced(d.files[id])])
  }

  function SyncDirectory(d: Disk): Disk {
    Disk(d.files, ApplyAll(d.dir, d.pending), [])
  }

  function WithOp(d: Disk, op: NameOp): Disk {
    d.(pending := d.pending + [op])
  }

  // ----------------------------------------------------------------- crashes

  ghost predicate Survives(was: File, now: File) {
    && now.kind == was.kind && now == Synced(now)
    && ((now.data <= was.data && was.durable <= |now.data|) || Some(now.data) == was.before)
  }

  ghost predicate Named(dir: Dir, id: nat) {
    id in dir.linked || dir.current == Some(id)
  }

  /** What a power cut may leave: files with no name are gone. */
  ghost predicate IsCrash(d: Disk, after: Disk) {
    && after.pending == []
    && (exists n :: 0 <= n <= |d.pending| && after.dir == ApplyAll(d.dir, d.pending[..n]))
    && (forall i :: i in after.files ==> i in d.files && Named(after.dir, i) && Survives(d.files[i], after.files[i]))
    && (forall i :: i in d.files && Named(after.dir, i) ==> i in after.files)
  }

  // ---------------------------------------------------------------- recovery

  datatype Version = Version(tables: set<nat>, log: Option<nat>, last: nat)

  function Applied(v: Version, e: Edit): Version {
    Version(v.tables - e.removed + e.added, if e.log.Some? then e.log else v.log, if e.last.Some? then e.last.value
        else v.last)
  }

  /** The version a manifest's records add up to. */
  function Replayed(data: seq<Item>): Version {
    if data == [] then Version({}, None, 0)
    else
      var v, last := Replayed(data[..|data| - 1]), data[|data| - 1];
      if last.Change? then Applied(v, last.edit) else v
  }

  ghost function BatchesIn(data: seq<Item>): set<Batch> {
    set x | x in data && x.Logged? :: x.batch
  }

  ghost function RowsIn(f: File): set<Batch> {
    if IsTable(f) then f.data[0].batches else {}
  }

  ghost function TableBatches(files: map<nat, File>, tables: set<nat>): set<Batch> {
    set i, b | i in tables && i in files && b in RowsIn(files[i]) :: b
  }

  /** The logs recovery replays: every one not below the log number. */
  ghost function Logs(d: Disk, log: nat): set<nat> {
    set i | i in d.dir.linked && i in d.files && d.files[i].kind.LogFile? && log <= i
  }

  ghost function LogBatches(files: map<nat, File>, logs: set<nat>): set<Batch> {
    set i, b | i in logs && i in files && b in BatchesIn(files[i].data) :: b
  }

  ghost predicate TablesThere(d: Disk, tables: set<nat>) {
    forall i :: i in tables ==> i in d.dir.linked && i in d.files && IsTable(d.files[i])
  }

  /** A whole table. */
  ghost predicate IsTable(f: File) {
    f.kind.TableFile? && |f.data| == 1 && f.data[0].Rows?
  }

  /** CURRENT leads to this manifest. */
  ghost predicate Leads(d: Disk, manifest: nat) {
    && d.dir.current.Some? && d.dir.current.value in d.files
    && d.files[d.dir.current.value].kind.TempFile? && d.files[d.dir.current.value].data == [Names(manifest)]
    && manifest in d.dir.linked && manifest in d.files && d.files[manifest].kind.ManifestFile?
  }

  ghost function Contents(d: Disk, v: Version): set<Batch>
    requires v.log.Some?
  {
    TableBatches(d.files, v.tables) + LogBatches(d.files, Logs(d, v.log.value))
  }

  // ------------------------------------------------------- sequence numbers

  /** The last number of these batches, or zero. */
  ghost function LastIn(batches: set<Batch>): nat {
    if batches == {} then 0
    else
      var b :| b in batches;
      var rest := LastIn(batches - {b});
      if End(b) <= rest + 1 then rest else End(b) - 1
  }

  lemma {:induction false} LastInBounds(batches: set<Batch>)
    ensures Bounded(batches, LastIn(batches))
    ensures LastIn(batches) == 0 || exists b :: b in batches && End(b) == LastIn(batches) + 1
  {
    if batches != {} {
      var b :| b in batches &&
        LastIn(batches) == var rest := LastIn(batches - {b}); if End(b) <= rest + 1 then rest else End(b) - 1;
      LastInBounds(batches - {b});
      forall c | c in batches ensures End(c) <= LastIn(batches) + 1 {
        assert c == b || c in batches - {b};
      }
    }
  }

  /** The last number recovery goes on from: the manifest's, or one found in a
      log if that is higher. */
  ghost function LastOf(d: Disk, v: Version): nat
    requires v.log.Some?
  {
    var inLogs := LastIn(LogBatches(d.files, Logs(d, v.log.value)));
    if v.last < inLogs then inLogs else v.last
  }

  lemma ContentsBounded(d: Disk, v: Version)
    requires v.log.Some? && Bounded(TableBatches(d.files, v.tables), v.last)
    ensures Bounded(Contents(d, v), LastOf(d, v))
    ensures LastOf(d, v) == v.last || exists b :: b in Contents(d, v) && End(b) == LastOf(d, v) + 1
  {
    LastInBounds(LogBatches(d.files, Logs(d, v.log.value)));
  }

  // ------------------------------------------------------------------ opening

  datatype Recovery = Recovery(batches: set<Batch>, last: nat)

  /** What recovery brings back, or None where it refuses to open. */
  ghost function Recovered(d: Disk): Option<Recovery> {
    if m :| Leads(d, m) then RecoveredVia(d, Replayed(d.files[m].data)) else None
  }

  ghost function RecoveredVia(d: Disk, v: Version): Option<Recovery> {
    if v.log.Some? && TablesThere(d, v.tables) then Some(Recovery(Contents(d, v), LastOf(d, v))) else None
  }

  lemma RecoveredFrom(d: Disk, m: nat)
    requires Leads(d, m)
    ensures Recovered(d) == RecoveredVia(d, Replayed(d.files[m].data))
  {
    assert forall k :: Leads(d, k) ==> [Names(k)] == [Names(m)];
    assert forall k :: [Names(k)] == [Names(m)] ==> [Names(k)][0] == [Names(m)][0];
  }

  /** Recovery finds these batches through this manifest, whose last sequence
      number is at or above all its tables hold. */
  ghost predicate Recovers(d: Disk, m: nat, batches: set<Batch>) {
    && Leads(d, m)
    && var v := Replayed(d.files[m].data);
    && v.log.Some? && TablesThere(d, v.tables) && Contents(d, v) == batches
    && Bounded(TableBatches(d.files, v.tables), v.last)
  }

  /** Then it opens with exactly them, and goes on above every one of them: from
      the manifest's number, or right after the last of them. */
  lemma RecoversAll(d: Disk, m: nat, batches: set<Batch>)
    requires Recovers(d, m, batches)
    ensures Recovered(d).Some? && Recovered(d).value.batches == batches && Bounded(batches, Recovered(d).value.last)
    ensures Recovered(d).value.last == Replayed(d.files[m].data).last ||
              exists b :: b in batches && End(b) == Recovered(d).value.last + 1
  {
    RecoveredFrom(d, m);
    ContentsBounded(d, Replayed(d.files[m].data));
  }

  // --------------------------------------------------- names that stay or come

  /** Committed, and no pending change removes it. */
  ghost predicate Linked(d: Disk, id: nat) {
    id in d.dir.linked && Unlink(id) !in d.pending && Rename(id) !in d.pending
  }

  lemma {:induction false} LinkedLasts(dir: Dir, ops: seq<NameOp>, n: nat, id: nat)
    requires n <= |ops| && id in dir.linked && Unlink(id) !in ops && Rename(id) !in ops
    ensures id in ApplyAll(dir, ops[..n]).linked
    decreases n
  {
    if 0 < n {
      LinkedLasts(dir, ops, n - 1, id);
      assert ops[..n][..n - 1] == ops[..n - 1];
      assert ops[n - 1] in ops;
    }
  }

  lemma {:induction false} CurrentLasts(dir: Dir, ops: seq<NameOp>, n: nat)
    requires n <= |ops| && forall t :: Rename(t) !in ops
    ensures ApplyAll(dir, ops[..n]).current == dir.current
    decreases n
  {
    if 0 < n {
      CurrentLasts(dir, ops, n - 1);
      assert ops[..n][..n - 1] == ops[..n - 1];
      assert ops[n - 1] in ops;
    }
  }

  lemma {:induction false} ApplyAppend(dir: Dir, ops: seq<NameOp>, op: NameOp)
    ensures ApplyAll(dir, ops + [op]) == Apply(ApplyAll(dir, ops), op)
  {
    assert (ops + [op])[..|ops|] == ops;
  }
}
