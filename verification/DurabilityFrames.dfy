/** What the steps of the commit protocol leave alone, and what a cut does. */
module DurabilityFrames {
  import opened Disks
  import opened Durability

  /** Every file but the touched ones keeps its contents and, if it was safe
      from a cut, stays so; new logs are empty. */
  ghost predicate Calm(d: Disk, e: Disk, touched: set<nat>) {
    && (forall i :: i in d.files ==> i in e.files && e.files[i].kind == d.files[i].kind)
    && (forall i :: i in d.files && i !in touched ==>
          && e.files[i].data == d.files[i].data && (Solid(d, i) ==> Solid(e, i))
          && (d.files[i].before.None? ==> e.files[i].before.None?))
    && (forall i :: i in e.files && i !in d.files && e.files[i].kind.LogFile? ==> Empty(e.files[i]))
  }

  lemma TableBatchesSame(x: map<nat, File>, y: map<nat, File>, tables: set<nat>)
    requires forall i :: i in tables ==> i in x && i in y && RowsIn(x[i]) == RowsIn(y[i])
    ensures TableBatches(x, tables) == TableBatches(y, tables)
  {
  }

  lemma LogBatchesSame(x: map<nat, File>, y: map<nat, File>, a: set<nat>, b: set<nat>)
    requires forall i :: i in a && i in x && BatchesIn(x[i].data) != {} ==>
               i in b && i in y && BatchesIn(y[i].data) == BatchesIn(x[i].data)
    requires forall i :: i in b && i in y && BatchesIn(y[i].data) != {} ==>
               i in a && i in x && BatchesIn(y[i].data) == BatchesIn(x[i].data)
    ensures LogBatches(x, a) == LogBatches(y, b)
  {
  }

  lemma SolidTablesCalm(d: Disk, e: Disk, touched: set<nat>, tables: set<nat>)
    requires Calm(d, e, touched) && SolidTables(d, tables) && touched !! tables
    ensures SolidTables(e, tables) && TableBatches(d.files, tables) == TableBatches(e.files, tables)
  {
    forall i | i in tables ensures Solid(e, i) && IsTable(e.files[i]) && RowsIn(d.files[i]) == RowsIn(e.files[i]) {
      assert Solid(d, i);
    }
    TableBatchesSame(d.files, e.files, tables);
  }

  lemma LogsCalm(d: Disk, e: Disk, touched: set<nat>, log: nat, except: set<nat>)
    requires Calm(d, e, touched) && AllLogs(d.files, log) * touched <= except
    ensures LogBatches(d.files, AllLogs(d.files, log) - except) == LogBatches(e.files, AllLogs(e.files, log) - except)
  {
    LogBatchesSame(d.files, e.files, AllLogs(d.files, log) - except, AllLogs(e.files, log) - except);
  }

  lemma CoversCalm(d: Disk, e: Disk, touched: set<nat>, v: Version, except: set<nat>, rows: set<Batch>)
    requires Covers(d, v, except, rows) && Calm(d, e, touched)
    requires touched !! v.tables && AllLogs(d.files, v.log.value) * touched <= except
    ensures Covers(e, v, except, rows)
  {
    SolidTablesCalm(d, e, touched, v.tables);
    LogsCalm(d, e, touched, v.log.value, except);
    forall i | i in AllLogs(e.files, v.log.value) - except ensures Solid(e, i) || Empty(e.files[i]) {
      if i in d.files {
        assert i in AllLogs(d.files, v.log.value) - except;
      }
    }
  }

  // ------------------------------------------------------------- the operations

  lemma CreateCalm(d: Disk, id: nat, kind: Kind, data: seq<Item>)
    requires id in d.files ==> d.files[id].kind == kind && !kind.LogFile?
    requires kind.LogFile? ==> data == []
    ensures Calm(d, Create(d, id, kind, data), {id})
  {
  }

  lemma AppendCalm(d: Disk, id: nat, item: Item)
    requires id in d.files
    ensures Calm(d, Append(d, id, item), {id})
  {
  }

  lemma SyncFileCalm(d: Disk, id: nat)
    requires id in d.files
    ensures Calm(d, SyncFile(d, id), {})
  {
  }

  lemma SyncDirectoryCalm(d: Disk)
    ensures Calm(d, SyncDirectory(d), {})
    ensures forall i :: Linked(d, i) ==> Linked(SyncDirectory(d), i)
  {
    forall i | Linked(d, i) ensures Linked(SyncDirectory(d), i) {
      LinkedLasts(d.dir, d.pending, |d.pending|, i);
      assert d.pending[..|d.pending|] == d.pending;
    }
  }

  lemma UnlinkCalm(d: Disk, id: nat)
    ensures Calm(d, WithOp(d, Unlink(id)), {id})
  {
  }

  lemma RenameCalm(d: Disk, id: nat)
    ensures Calm(d, WithOp(d, Rename(id)), {id})
  {
  }

  // ----------------------------------------------------------------- the cut

  lemma SolidSurvives(d: Disk, after: Disk, id: nat)
    requires IsCrash(d, after) && id in d.files && Linked(d, id)
    ensures id in after.dir.linked && id in after.files
    ensures Solid(d, id) ==> after.files[id].data == d.files[id].data
  {
    var n :| 0 <= n <= |d.pending| && after.dir == ApplyAll(d.dir, d.pending[..n]);
    LinkedLasts(d.dir, d.pending, n, id);
    assert Named(after.dir, id);
  }

  lemma TablesSurvive(d: Disk, after: Disk, tables: set<nat>)
    requires IsCrash(d, after) && SolidTables(d, tables)
    ensures TablesThere(after, tables) && TableBatches(after.files, tables) == TableBatches(d.files, tables)
  {
    forall i | i in tables
      ensures i in after.dir.linked && i in after.files && IsTable(after.files[i])
      ensures RowsIn(d.files[i]) == RowsIn(after.files[i]) {
      SolidSurvives(d, after, i);
    }
    TableBatchesSame(after.files, d.files, tables);
  }

  /** The logs that are whole on the disk are whole after the cut. */
  lemma LogsSurvive(d: Disk, after: Disk, log: nat, except: set<nat>)
    requires IsCrash(d, after)
    requires forall i :: i in AllLogs(d.files, log) - except ==> Solid(d, i) || Empty(d.files[i])
    ensures LogBatches(after.files, Logs(after, log) - except) == LogBatches(d.files, AllLogs(d.files, log) - except)
  {
    forall i | i in AllLogs(d.files, log) - except && d.files[i].data != []
      ensures i in Logs(after, log) && after.files[i].data == d.files[i].data {
      SolidSurvives(d, after, i);
    }
    forall i | i in Logs(after, log) - except
      ensures i in AllLogs(d.files, log) && after.files[i].data == d.files[i].data {
      assert i in AllLogs(d.files, log) - except;
      if Empty(d.files[i]) {
        assert after.files[i].data <= d.files[i].data;
      }
    }
    LogBatchesSame(after.files, d.files, Logs(after, log) - except, AllLogs(d.files, log) - except);
  }

  lemma LogBatchesSplit(files: map<nat, File>, logs: set<nat>, except: set<nat>)
    ensures LogBatches(files, logs) == LogBatches(files, logs - except) + LogBatches(files, logs * except)
  {
  }

  /** What recovery reads through a version that was covered before the cut. */
  lemma CoversCrash(d: Disk, after: Disk, v: Version, except: set<nat>, rows: set<Batch>)
    requires Covers(d, v, except, rows) && IsCrash(d, after)
    ensures TablesThere(after, v.tables)
    ensures Contents(after, v) == rows + LogBatches(after.files, Logs(after, v.log.value) * except)
  {
    TablesSurvive(d, after, v.tables);
    LogsSurvive(d, after, v.log.value, except);
    LogBatchesSplit(after.files, Logs(after, v.log.value), except);
  }

  lemma CoversCrashWhole(d: Disk, after: Disk, v: Version, rows: set<Batch>)
    requires Covers(d, v, {}, rows) && IsCrash(d, after)
    ensures TablesThere(after, v.tables) && Contents(after, v) == rows
  {
    CoversCrash(d, after, v, {}, rows);
    assert Logs(after, v.log.value) * {} == {};
    assert LogBatches(after.files, {}) == {};
  }
}
