/** The body of a compaction: do_compaction_work with its drop rule, and the
    resumable check is_base_level_for_key.

    `Kept` says which entries of the merged input survive.  `KeptPreservesViews`
    is the point of it: replacing the inputs by what is kept changes no read at
    any snapshot at or above the smallest live one. */
module CompactionWork {
  import opened Keys
  import opened Entries
  import opened Levels

  // ------------------------------------------------------------ the drop rule

  /** No file deeper than the output level spans the user key. */
  ghost predicate IsBase(v: Version, level: nat, user: UserKey)
    requires |v| == NUM_LEVELS
  {
    forall l, f {:trigger f in v[l]} :: level + 2 <= l < NUM_LEVELS && f in v[l] ==>
      Rank(user) < Rank(f.smallest.user) || Rank(f.largest.user) < Rank(user)
  }

  /** Entry i of the merged input goes: a newer version is visible to every
      live snapshot, or it is a tombstone with nothing left below to hide. */
  ghost predicate Drops(merged: seq<Entry>, snapshot: nat, v: Version, level: nat, i: int)
    requires 0 <= i < |merged| && |v| == NUM_LEVELS
  {
    var key := merged[i].key;
    || (i > 0 && merged[i - 1].key.user == key.user && merged[i - 1].key.sequence <= snapshot)
    || (key.kind.Deletion? && key.sequence <= snapshot && IsBase(v, level, key.user))
  }

  ghost function Kept(merged: seq<Entry>, snapshot: nat, v: Version, level: nat, n: nat): seq<Entry>
    requires n <= |merged| && |v| == NUM_LEVELS
  {
    if n == 0 then []
    else Kept(merged, snapshot, v, level, n - 1)
         + if Drops(merged, snapshot, v, level, n - 1) then [] else [merged[n - 1]]
  }

  lemma {:induction false} KeptMembers(merged: seq<Entry>, snapshot: nat, v: Version, level: nat, n: nat, e: Entry)
    requires n <= |merged| && |v| == NUM_LEVELS
    ensures e in Kept(merged, snapshot, v, level, n) <==>
            exists i :: 0 <= i < n && merged[i] == e && !Drops(merged, snapshot, v, level, i)
  {
    if n > 0 {
      KeptMembers(merged, snapshot, v, level, n - 1, e);
    }
  }

  lemma {:induction false} KeptSorted(merged: seq<Entry>, snapshot: nat, v: Version, level: nat, n: nat)
    requires n <= |merged| && |v| == NUM_LEVELS && Sorted(merged)
    ensures Sorted(Kept(merged, snapshot, v, level, n))
    ensures forall e, i :: e in Kept(merged, snapshot, v, level, n) && n <= i < |merged| ==> Less(e.key, merged[i].key)
    ensures forall e :: e in Kept(merged, snapshot, v, level, n) ==> e in merged
  {
    if n > 0 {
      KeptSorted(merged, snapshot, v, level, n - 1);
    }
  }

  /** Once one version of a key is at or below the snapshot, every later one in
      the merged order is dropped. */
  lemma {:induction false} OlderIsDropped(merged: seq<Entry>, snapshot: nat, v: Version, level: nat, i: nat, j: nat)
    requires |v| == NUM_LEVELS && Sorted(merged) && i < j < |merged|
    requires merged[i].key.user == merged[j].key.user && merged[i].key.sequence <= snapshot
    ensures Drops(merged, snapshot, v, level, j)
  {
    assert Less(merged[i].key, merged[j].key);
    if i < j - 1 {
      RankIsLexicographic(merged[j - 1].key.user, merged[j].key.user);
      assert Less(merged[i].key, merged[j - 1].key) && Less(merged[j - 1].key, merged[j].key);
    }
  }

  /** A version before this one in the merged order is of the same key and
      visible to every live snapshot. */
  ghost predicate Shadowed(merged: seq<Entry>, snapshot: nat, i: nat)
    requires i < |merged|
  {
    exists j :: 0 <= j < i && merged[j].key.user == merged[i].key.user && merged[j].key.sequence <= snapshot
  }

  /** A file below the output level spans the user key. */
  ghost predicate SpannedBelow(v: Version, level: nat, user: UserKey)
    requires |v| == NUM_LEVELS
  {
    exists l, f {:trigger f in v[l]} :: level + 2 <= l < NUM_LEVELS && f in v[l] &&
      Rank(f.smallest.user) <= Rank(user) <= Rank(f.largest.user)
  }

  /** A tombstone every live snapshot sees, with nothing below it to hide. */
  ghost predicate Spent(e: Entry, snapshot: nat, v: Version, level: nat)
    requires |v| == NUM_LEVELS
  {
    e.key.kind.Deletion? && e.key.sequence <= snapshot && !SpannedBelow(v, level, e.key.user)
  }

  /** The rule that looks one entry back drops exactly the shadowed entries and
      the spent tombstones. */
  lemma DropsIff(merged: seq<Entry>, snapshot: nat, v: Version, level: nat, i: nat)
    requires |v| == NUM_LEVELS && Sorted(merged) && i < |merged|
    ensures Drops(merged, snapshot, v, level, i) <==>
            Shadowed(merged, snapshot, i) || Spent(merged[i], snapshot, v, level)
  {
    if Shadowed(merged, snapshot, i) {
      var j :| 0 <= j < i && merged[j].key.user == merged[i].key.user && merged[j].key.sequence <= snapshot;
      OlderIsDropped(merged, snapshot, v, level, j, i);
    }
    assert IsBase(v, level, merged[i].key.user) <==> !SpannedBelow(v, level, merged[i].key.user);
  }

  /** What the drop rule owes: reads at live snapshots do not change.  `rest` is
      everything in the store that is not an input; it holds no version older
      than a tombstone whose key has no deeper file. */
  lemma KeptPreservesViews(rest: set<Entry>, merged: seq<Entry>, snapshot: nat, v: Version, level: nat, user: UserKey,
                           s: nat)
    requires |v| == NUM_LEVELS && Sorted(merged)
    requires Distinct(rest + SetOf(merged))
    requires forall d, x :: d in merged && x in rest && d.key.user == x.key.user == user && IsBase(v, level, user) ==>
               d.key.sequence < x.key.sequence
    requires s >= snapshot
    ensures View(rest + SetOf(Kept(merged, snapshot, v, level, |merged|)), user, s) ==
        View(rest + SetOf(merged), user, s)
  {
    var before, after := rest + SetOf(merged), rest + SetOf(Kept(merged, snapshot, v, level, |merged|));
    KeptSorted(merged, snapshot, v, level, |merged|);
    assert after <= before;
    NewestIsNone(before, user, s);
    NewestIsNone(after, user, s);
    if n :| IsNewest(before, user, s, n) {
      NewestIs(before, user, s, n);
      if n in after {
        assert IsNewest(after, user, s, n);
        NewestIs(after, user, s, n);
      } else {
        DroppedNewest(rest, merged, snapshot, v, level, user, s, n);
      }
    }
  }

  /** If the newest visible version was dropped, it was a tombstone and nothing
      of the key is visible any more. */
  lemma DroppedNewest(rest: set<Entry>, merged: seq<Entry>, snapshot: nat, v: Version, level: nat, user: UserKey,
                      s: nat, n: Entry)
    requires |v| == NUM_LEVELS && Sorted(merged)
    requires Distinct(rest + SetOf(merged))
    requires forall d, x :: d in merged && x in rest && d.key.user == x.key.user == user && IsBase(v, level, user) ==>
               d.key.sequence < x.key.sequence
    requires s >= snapshot
    requires IsNewest(rest + SetOf(merged), user, s, n)
    requires n !in rest + SetOf(Kept(merged, snapshot, v, level, |merged|))
    ensures n.key.kind.Deletion?
    ensures forall e :: e in rest + SetOf(Kept(merged, snapshot, v, level, |merged|)) ==> !Visible(e, user, s)
  {
    var i :| 0 <= i < |merged| && merged[i] == n;
    KeptMembers(merged, snapshot, v, level, |merged|, n);
    assert Drops(merged, snapshot, v, level, i);
    if i > 0 && merged[i - 1].key.user == user && merged[i - 1].key.sequence <= snapshot {
      assert merged[i - 1] in SetOf(merged) && Less(merged[i - 1].key, merged[i].key);
      assert Visible(merged[i - 1], user, s);
      assert false;
    }
    forall e | e in rest + SetOf(Kept(merged, snapshot, v, level, |merged|)) ensures !Visible(e, user, s) {
      if e in rest {
        assert e.key.user == user ==> n.key.sequence < e.key.sequence;
        assert e in rest + SetOf(merged);
      } else {
        KeptMembers(merged, snapshot, v, level, |merged|, e);
        var j :| 0 <= j < |merged| && merged[j] == e && !Drops(merged, snapshot, v, level, j);
        if e.key.user == user {
          NewerIsKept(merged, snapshot, v, level, i, j);
          assert e in rest + SetOf(merged) && n in rest + SetOf(merged);
        }
      }
    }
  }

  lemma NewerIsKept(merged: seq<Entry>, snapshot: nat, v: Version, level: nat, i: nat, j: nat)
    requires |v| == NUM_LEVELS && Sorted(merged) && i < |merged| && j < |merged| && i != j
    requires merged[i].key.user == merged[j].key.user && merged[i].key.sequence <= snapshot
    requires !Drops(merged, snapshot, v, level, j)
    ensures merged[j].key.sequence >= merged[i].key.sequence
  {
    if i < j {
      OlderIsDropped(merged, snapshot, v, level, i, j);
    }
  }

  // ----------------------------------------------- the base-level check

  /** The part of a Compaction that is_base_level_for_key reads and moves: one
      resumable position per level, because keys arrive in order. */
  class Compaction {
    const version: Version
    const level: nat
    var levelPointers: seq<nat>
    ghost var asked: Option<UserKey>

    ghost predicate Valid()
      reads this
    {
      && LevelsOk(version)
      && |levelPointers| == NUM_LEVELS
      && (forall l :: 0 <= l < NUM_LEVELS ==> levelPointers[l] <= |version[l]|)
      && (forall l, i {:trigger version[l][i]} :: level + 2 <= l < NUM_LEVELS && 0 <= i < levelPointers[l] ==>
            asked.Some? && Rank(version[l][i].largest.user) < Rank(asked.value))
    }

    constructor (version: Version, level: nat)
      requires LevelsOk(version)
      ensures Valid() && this.version == version && this.level == level && asked == None
    {
      this.version, this.level := version, level;
      levelPointers := seq(NUM_LEVELS, _ => 0);
      asked := None;
    }

    /** The scan of one level, resumed where the last one stopped. */
    method ScanLevel(l: nat, user: UserKey) returns (spans: bool)
      requires Valid() && level + 2 <= l < NUM_LEVELS && asked == Some(user)
      modifies this`levelPointers
      ensures Valid()
      ensures spans <==> exists f :: f in version[l] && Rank(f.smallest.user) <= Rank(user) <= Rank(f.largest.user)
    {
      var files := version[l];
      assert DisjointSorted(files);
      while levelPointers[l] < |files|
        invariant Valid()
        invariant forall i :: 0 <= i < levelPointers[l] ==> Rank(files[i].largest.user) < Rank(user)
        decreases |files| - levelPointers[l]
      {
        var file := files[levelPointers[l]];
        if Compare(user, file.largest.user) <= 0 {
          if Compare(user, file.smallest.user) >= 0 {
            return true;
          }
          assert file in version[l];
          BoundsInOrder(file);
          forall f | f in files ensures !(Rank(f.smallest.user) <= Rank(user) <= Rank(f.largest.user)) {
            var i :| 0 <= i < |files| && files[i] == f;
          }
          return false;
        }
        levelPointers := levelPointers[l := levelPointers[l] + 1];
      }
      return false;
    }

    /** is_base_level_for_key: exact, for user keys asked in order. */
    method IsBaseLevelForKey(user: UserKey) returns (base: bool)
      requires Valid()
      requires asked.Some? ==> Rank(asked.value) <= Rank(user)
      modifies this
      ensures Valid() && asked == Some(user)
      ensures base <==> IsBase(version, level, user)
    {
      asked := Some(user);
      var l := level + 2;
      while l < NUM_LEVELS
        invariant level + 2 <= l
        invariant Valid() && asked == Some(user)
        invariant forall m, f {:trigger f in version[m]} :: level + 2 <= m < l && m < NUM_LEVELS && f in version[m] ==>
                    !(Rank(f.smallest.user) <= Rank(user) <= Rank(f.largest.user))
      {
        var spans := ScanLevel(l, user);
        if spans {
          return false;
        }
        l := l + 1;
      }
      return true;
    }
  }

  // ------------------------------------------------------ the output files

  ghost function Flatten(outputs: seq<File>): seq<Entry> {
    if outputs == [] then [] else Flatten(outputs[..|outputs| - 1]) + outputs[|outputs| - 1].entries
  }

  ghost predicate Bounded(f: File) {
    && |f.entries| > 0
    && f.smallest == f.entries[0].key
    && f.largest == f.entries[|f.entries| - 1].key
  }

  lemma {:induction false} FlattenMembers(outputs: seq<File>, e: Entry)
    ensures e in Flatten(outputs) <==> exists f :: f in outputs && e in f.entries
  {
    if outputs != [] {
      var front, last := outputs[..|outputs| - 1], outputs[|outputs| - 1];
      FlattenMembers(front, e);
      assert outputs == front + [last];
    }
  }

  lemma SortedParts(a: seq<Entry>, b: seq<Entry>)
    requires Sorted(a + b)
    ensures Sorted(a) && Sorted(b)
    ensures forall x, y :: x in a && y in b ==> Less(x.key, y.key)
  {
    var all := a + b;
    assert forall i :: 0 <= i < |a| ==> a[i] == all[i];
    assert forall i :: 0 <= i < |b| ==> b[i] == all[|a| + i];
  }

  /** Cutting a sorted run of entries into files gives disjoint sorted files. */
  lemma {:induction false} CutIsSorted(outputs: seq<File>)
    requires forall f :: f in outputs ==> Bounded(f)
    requires Sorted(Flatten(outputs))
    ensures forall f :: f in outputs ==> Sorted(f.entries)
    ensures DisjointSorted(outputs)
  {
    if outputs != [] {
      var front, last := outputs[..|outputs| - 1], outputs[|outputs| - 1];
      assert last in outputs;
      SortedParts(Flatten(front), last.entries);
      CutIsSorted(front);
      forall i | 0 <= i < |front| ensures Less(front[i].largest, last.smallest) {
        assert front[i] in outputs;
        FlattenMembers(front, front[i].entries[|front[i].entries| - 1]);
        assert last.entries[0] in last.entries;
      }
    }
  }

  lemma DistinctPlaces(merged: seq<Entry>, i: nat, j: nat)
    requires Sorted(merged) && i < |merged| && j < |merged| && merged[i] == merged[j]
    ensures i == j
  {
  }

  /** An entry is in some output if and only if it is neither shadowed nor a
      spent tombstone. */
  lemma OutputsHold(outputs: seq<File>, merged: seq<Entry>, snapshot: nat, v: Version, level: nat, i: nat)
    requires |v| == NUM_LEVELS && Sorted(merged) && i < |merged|
    requires Flatten(outputs) == Kept(merged, snapshot, v, level, |merged|)
    ensures (exists f :: f in outputs && merged[i] in f.entries) <==>
            !Shadowed(merged, snapshot, i) && !Spent(merged[i], snapshot, v, level)
  {
    FlattenMembers(outputs, merged[i]);
    KeptMembers(merged, snapshot, v, level, |merged|, merged[i]);
    DropsIff(merged, snapshot, v, level, i);
    if j :| 0 <= j < |merged| && merged[j] == merged[i] && !Drops(merged, snapshot, v, level, j) {
      DistinctPlaces(merged, i, j);
    }
  }

  ghost predicate OutputsOk(outputs: seq<File>, number: nat -> nat) {
    && (forall f :: f in outputs ==> Bounded(f))
    && (forall i :: 0 <= i < |outputs| ==> outputs[i].number == number(i))
  }

  // --------------------------------------------------------- where they are cut

  /** Where outputs are cut: before some inputs, and when one is large enough. */
  datatype Cuts = Cuts(stopBefore: nat -> bool, sizeOf: seq<Entry> -> nat, maxSize: nat)

  /** It went on only while it was below the size. */
  ghost predicate Lean(cuts: Cuts, entries: seq<Entry>) {
    forall k :: 0 < k < |entries| ==> cuts.sizeOf(entries[..k]) < cuts.maxSize
  }

  /** Every entry is on one side of each of the first n inputs that cut. */
  ghost predicate OneSide(cuts: Cuts, merged: seq<Entry>, n: nat, entries: seq<Entry>)
    requires n <= |merged|
  {
    forall i, d, e :: 0 <= i < n && cuts.stopBefore(i) && d in entries && e in entries ==>
      (Less(d.key, merged[i].key) <==> Less(e.key, merged[i].key))
  }

  /** It was large enough, or one of the first n inputs cuts between it and
      what came next. */
  ghost predicate Due(cuts: Cuts, merged: seq<Entry>, n: nat, entries: seq<Entry>, next: seq<Entry>)
    requires n <= |merged|
  {
    cuts.sizeOf(entries) >= cuts.maxSize || exists i :: 0 <= i < n && CutsBetween(cuts, merged, i, entries, next)
  }

  ghost predicate CutsBetween(cuts: Cuts, merged: seq<Entry>, i: nat, entries: seq<Entry>, next: seq<Entry>)
    requires i < |merged|
  {
    && cuts.stopBefore(i) && (forall e :: e in entries ==> Less(e.key, merged[i].key))
    && (forall e :: e in next ==> !Less(e.key, merged[i].key))
  }

  /** No output goes on past a cut, and every one but the last ends at one. */
  ghost predicate CutRight(cuts: Cuts, merged: seq<Entry>, outputs: seq<File>) {
    && (forall f :: f in outputs ==> Lean(cuts, f.entries) && OneSide(cuts, merged, |merged|, f.entries))
    && (forall j :: 0 <= j < |outputs| - 1 ==>
          Due(cuts, merged, |merged|, outputs[j].entries, outputs[j + 1].entries))
  }

  /** The same in the middle of the loop, with an output open. */
  ghost predicate Cutting(cuts: Cuts, merged: seq<Entry>, n: nat, b: Building)
    requires n <= |merged|
  {
    && CutRight(cuts, merged, b.outputs) && Lean(cuts, b.current)
    && (b.outputs != [] ==> Due(cuts, merged, n, b.outputs[|b.outputs| - 1].entries, b.current))
    && (forall i, e :: 0 <= i < n && cuts.stopBefore(i) && e in b.current ==> !Less(e.key, merged[i].key))
    && (forall e, i :: e in b.current && n <= i < |merged| ==> Less(e.key, merged[i].key))
  }

  /** The open output is below the size. */
  ghost predicate Small(cuts: Cuts, b: Building) {
    b.current != [] ==> cuts.sizeOf(b.current) < cuts.maxSize
  }

  lemma DueLater(cuts: Cuts, merged: seq<Entry>, n: nat, m: nat, entries: seq<Entry>, next: seq<Entry>)
    requires n <= m <= |merged| && Due(cuts, merged, n, entries, next)
    ensures Due(cuts, merged, m, entries, next)
  {
  }

  /** Closing the open output where that is due. */
  lemma ClosedRight(cuts: Cuts, merged: seq<Entry>, n: nat, m: nat, b: Building, size: nat, number: nat -> nat)
    requires n <= m <= |merged| && b.current != [] && Cutting(cuts, merged, n, b)
    requires Due(cuts, merged, m, b.current, [])
    ensures Cutting(cuts, merged, m, b.Finish(size, number))
  {
    var r := b.Finish(size, number);
    var was := |b.outputs|;
    assert r.outputs[was].entries == b.current;
    forall f | f in r.outputs ensures Lean(cuts, f.entries) && OneSide(cuts, merged, |merged|, f.entries) {
      if f !in b.outputs {
        assert f.entries == b.current;
      }
    }
    forall j | 0 <= j < |r.outputs| - 1
      ensures Due(cuts, merged, |merged|, r.outputs[j].entries, r.outputs[j + 1].entries)
    {
      if j == was - 1 {
        DueLater(cuts, merged, n, |merged|, r.outputs[j].entries, b.current);
      }
    }
  }

  /** Going on to input n with nothing cut before it. */
  lemma PassedRight(cuts: Cuts, merged: seq<Entry>, n: nat, b: Building)
    requires n < |merged| && Cutting(cuts, merged, n, b) && (b.current == [] || !cuts.stopBefore(n))
    ensures Cutting(cuts, merged, n + 1, b)
  {
    if b.outputs != [] {
      DueLater(cuts, merged, n, n + 1, b.outputs[|b.outputs| - 1].entries, b.current);
    }
  }

  lemma AppendedLean(cuts: Cuts, b: Building, e: Entry)
    requires Lean(cuts, b.current) && Small(cuts, b)
    ensures Lean(cuts, b.Append(e).current)
  {
    var r := b.Append(e);
    forall k | 0 < k < |r.current| ensures cuts.sizeOf(r.current[..k]) < cuts.maxSize {
      if k < |b.current| {
        assert r.current[..k] == b.current[..k];
      } else {
        assert r.current[..k] == b.current;
      }
    }
  }

  lemma AppendedDue(cuts: Cuts, merged: seq<Entry>, n: nat, last: seq<Entry>, current: seq<Entry>)
    requires n < |merged| && Sorted(merged) && Due(cuts, merged, n + 1, last, current)
    ensures Due(cuts, merged, n + 1, last, current + [merged[n]])
  {
    if cuts.sizeOf(last) < cuts.maxSize {
      var i :| 0 <= i < n + 1 && CutsBetween(cuts, merged, i, last, current);
      assert CutsBetween(cuts, merged, i, last, current + [merged[n]]);
    }
  }

  lemma AppendedRight(cuts: Cuts, merged: seq<Entry>, n: nat, b: Building)
    requires n < |merged| && Sorted(merged) && Cutting(cuts, merged, n + 1, b) && Small(cuts, b)
    ensures Cutting(cuts, merged, n + 1, b.Append(merged[n]))
  {
    AppendedLean(cuts, b, merged[n]);
    if b.outputs != [] {
      AppendedDue(cuts, merged, n, b.outputs[|b.outputs| - 1].entries, b.current);
    }
  }

  /** The outputs closed so far, and the entries of the one being built; there
      is no open builder while `current` is empty. */
  datatype Building = Building(outputs: seq<File>, current: seq<Entry>) {
    ghost function All(): seq<Entry> {
      Flatten(outputs) + current
    }


    /** finish_compaction_output_file: the open output becomes a file. */
    function Finish(size: nat, number: nat -> nat): (r: Building)
      requires current != []
      ensures r.All() == All() && r.current == []
      ensures OutputsOk(outputs, number) ==> OutputsOk(r.outputs, number)
    {
      var file := File(number(|outputs|), size, current[0].key, current[|current| - 1].key, current);
      assert (outputs + [file])[..|outputs|] == outputs;
      assert Flatten(outputs + [file]) + [] == Flatten(outputs) + current;
      Building(outputs + [file], [])
    }

    function Append(e: Entry): (r: Building)
      ensures r.All() == All() + [e] && r.current != []
      ensures r.outputs == outputs
    {
      Building(outputs, current + [e])
    }
  }

  /** The decision of one turn of the loop, from the state the loop carries. */
  method DecideDrop(c: Compaction, merged: seq<Entry>, i: nat, lastSequenceForKey: nat, snapshot: nat)
    returns (drop: bool)
    requires c.Valid() && Sorted(merged) && i < |merged| && snapshot < MAX_SEQUENCE
    requires lastSequenceForKey == if i > 0 && merged[i - 1].key.user == merged[i].key.user
                                   then merged[i - 1].key.sequence else MAX_SEQUENCE
    requires c.asked.Some? ==> Rank(c.asked.value) <= Rank(merged[i].key.user)
    modifies c
    ensures c.Valid()
    ensures c.asked.Some? ==> Rank(c.asked.value) <= Rank(merged[i].key.user)
    ensures drop <==> Drops(merged, snapshot, c.version, c.level, i)
  {
    var key := merged[i].key;
    drop := false;
    if lastSequenceForKey <= snapshot {
      drop := true;
    } else if key.kind.Deletion? && key.sequence <= snapshot {
      drop := c.IsBaseLevelForKey(key.user);
    }
  }

  /** What the loop carries from one input entry to the next. */
  datatype Turning = Turning(building: Building, currentUserKey: UserKey, hasCurrentUserKey: bool,
      lastSequenceForKey: nat) {
    ghost predicate Ok(merged: seq<Entry>, i: nat, asked: Option<UserKey>)
      requires i <= |merged|
    {
      && hasCurrentUserKey == (i > 0)
      && (i > 0 ==> currentUserKey == merged[i - 1].key.user && lastSequenceForKey == merged[i - 1].key.sequence)
      && (asked.Some? ==> i > 0 && Rank(asked.value) <= Rank(merged[i - 1].key.user))
    }
  }

  /** One turn of the loop. */
  method TakeEntry(c: Compaction, merged: seq<Entry>, i: nat, t: Turning, snapshot: nat, cuts: Cuts, number: nat -> nat)
    returns (r: Turning)
    requires c.Valid() && Sorted(merged) && i < |merged| && snapshot < MAX_SEQUENCE
    requires t.Ok(merged, i, c.asked) && OutputsOk(t.building.outputs, number)
    requires Cutting(cuts, merged, i, t.building) && Small(cuts, t.building)
    modifies c
    ensures c.Valid() && r.Ok(merged, i + 1, c.asked) && OutputsOk(r.building.outputs, number)
    ensures r.building.All() == t.building.All() + if Drops(merged, snapshot, c.version, c.level, i) then []
        else [merged[i]]
    ensures Cutting(cuts, merged, i + 1, r.building) && Small(cuts, r.building)
  {
    var key := merged[i].key;
    assert i > 0 ==> Less(merged[i - 1].key, key);
    var b := CutBefore(merged, i, t.building, cuts, number);
    var last := if !t.hasCurrentUserKey || key.user != t.currentUserKey then MAX_SEQUENCE else t.lastSequenceForKey;
    var drop := DecideDrop(c, merged, i, last, snapshot);
    if !drop {
      b := AddEntry(merged, i, b, cuts, number);
    }
    r := Turning(b, key.user, true, key.sequence);
  }

  /** should_stop_before is asked of an open output only. */
  method CutBefore(merged: seq<Entry>, i: nat, b: Building, cuts: Cuts, number: nat -> nat) returns (r: Building)
    requires i < |merged| && OutputsOk(b.outputs, number) && Cutting(cuts, merged, i, b) && Small(cuts, b)
    ensures r.All() == b.All() && OutputsOk(r.outputs, number)
    ensures Cutting(cuts, merged, i + 1, r) && Small(cuts, r)
  {
    r := b;
    if b.current != [] && cuts.stopBefore(i) {
      assert CutsBetween(cuts, merged, i, b.current, []);
      ClosedRight(cuts, merged, i, i + 1, b, cuts.sizeOf(b.current), number);
      r := b.Finish(cuts.sizeOf(b.current), number);
    } else {
      PassedRight(cuts, merged, i, b);
    }
  }

  method AddEntry(merged: seq<Entry>, i: nat, b: Building, cuts: Cuts, number: nat -> nat) returns (r: Building)
    requires i < |merged| && Sorted(merged) && OutputsOk(b.outputs, number)
    requires Cutting(cuts, merged, i + 1, b) && Small(cuts, b)
    ensures r.All() == b.All() + [merged[i]] && OutputsOk(r.outputs, number)
    ensures Cutting(cuts, merged, i + 1, r) && Small(cuts, r)
  {
    r := b.Append(merged[i]);
    AppendedRight(cuts, merged, i, b);
    if cuts.sizeOf(r.current) >= cuts.maxSize {
      ClosedRight(cuts, merged, i + 1, i + 1, r, cuts.sizeOf(r.current), number);
      r := r.Finish(cuts.sizeOf(r.current), number);
    }
  }

  /** The output still open at the end is the last one, cut or not. */
  lemma LastRight(cuts: Cuts, merged: seq<Entry>, b: Building, size: nat, number: nat -> nat)
    requires b.current != [] && Cutting(cuts, merged, |merged|, b)
    ensures CutRight(cuts, merged, b.Finish(size, number).outputs)
  {
    var r := b.Finish(size, number);
    assert r.outputs[|b.outputs|].entries == b.current;
    forall f | f in r.outputs ensures Lean(cuts, f.entries) && OneSide(cuts, merged, |merged|, f.entries) {
      if f !in b.outputs {
        assert f.entries == b.current;
      }
    }
  }

  /** do_compaction_work.  The merged input is what the merging iterator walks;
      an entry is in the outputs if and only if it is neither shadowed nor a
      spent tombstone.  In `cuts`, `stopBefore` stands for should_stop_before at
      each input and `sizeOf` for the builder's file size; `number` gives the
      outputs' file numbers. */
  method DoCompactionWork(c: Compaction, merged: seq<Entry>, snapshot: nat, cuts: Cuts, number: nat -> nat)
    returns (outputs: seq<File>)
    requires c.Valid() && c.asked == None
    requires Sorted(merged)
    requires snapshot < MAX_SEQUENCE
    modifies c
    ensures Flatten(outputs) == Kept(merged, snapshot, c.version, c.level, |merged|)
    ensures forall i :: 0 <= i < |merged| ==>
              ((exists f :: f in outputs && merged[i] in f.entries) <==>
                !Shadowed(merged, snapshot, i) && !Spent(merged[i], snapshot, c.version, c.level))
    ensures OutputsOk(outputs, number) && CutRight(cuts, merged, outputs)
    ensures forall f :: f in outputs ==> Sorted(f.entries)
    ensures DisjointSorted(outputs)
  {
    var t := Turning(Building([], []), [], false, MAX_SEQUENCE);
    for i := 0 to |merged|
      invariant c.Valid()
      invariant t.Ok(merged, i, c.asked)
      invariant t.building.All() == Kept(merged, snapshot, c.version, c.level, i)
      invariant OutputsOk(t.building.outputs, number)
      invariant Cutting(cuts, merged, i, t.building) && Small(cuts, t.building)
    {
      t := TakeEntry(c, merged, i, t, snapshot, cuts, number);
    }
    outputs := CloseLast(merged, t.building, cuts, number);
    KeptSorted(merged, snapshot, c.version, c.level, |merged|);
    CutIsSorted(outputs);
    forall i | 0 <= i < |merged|
      ensures (exists f :: f in outputs && merged[i] in f.entries) <==>
              !Shadowed(merged, snapshot, i) && !Spent(merged[i], snapshot, c.version, c.level)
    {
      OutputsHold(outputs, merged, snapshot, c.version, c.level, i);
    }
  }

  method CloseLast(merged: seq<Entry>, b: Building, cuts: Cuts, number: nat -> nat) returns (outputs: seq<File>)
    requires OutputsOk(b.outputs, number) && Cutting(cuts, merged, |merged|, b)
    ensures Flatten(outputs) == b.All() && OutputsOk(outputs, number) && CutRight(cuts, merged, outputs)
  {
    if b.current == [] {
      return b.outputs;
    }
    LastRight(cuts, merged, b, cuts.sizeOf(b.current), number);
    var r := b.Finish(cuts.sizeOf(b.current), number);
    assert r.All() == Flatten(r.outputs);
    outputs := r.outputs;
  }
}
