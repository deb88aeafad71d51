/** VersionSet::Builder: applying edits to a version, and replaying a manifest.

    The live version set installs edits one at a time, each through a builder
    of its own.  Recovery applies a written snapshot and every later edit to
    one builder and saves once.  `ReplayAgrees` says the two end with the same
    file sequence in every level and the same log number, as long as no file
    number is added twice to the same level. */
module VersionBuilder {
  import opened Keys
  import opened Entries
  import opened Levels

  /** A VersionEdit, less its compaction pointers. */
  datatype Edit = Edit(header: Header, deleted: set<(nat, nat)>, added: seq<(nat, File)>)

  /** What an edit may carry besides files. */
  datatype Header = Header(comparator: Option<string>, log: Option<nat>, prevLog: Option<nat>, nextFile: Option<nat>,
                           lastSequence: Option<nat>)

  const PLAIN := Header(None, None, None, None, None)

  // --------------------------------------------------------- the file order

  /** BySmallestKey: by smallest internal key, ties by file number. */
  predicate Precedes(a: File, b: File) {
    var r := CompareInternal(a.smallest, b.smallest);
    if r != 0 then r < 0 else a.number < b.number
  }

  ghost predicate InOrder(files: seq<File>) {
    forall i, j :: 0 <= i < j < |files| ==> Precedes(files[i], files[j])
  }

  /** A level is determined by its set of files. */
  lemma {:induction false} OrderIsUnique(a: seq<File>, b: seq<File>)
    requires InOrder(a) && InOrder(b)
    requires forall f :: f in a <==> f in b
    ensures a == b
  {
    assert a != [] ==> a[0] in a;
    assert b != [] ==> b[0] in b;
    if a != [] && b != [] {
      var i :| 0 <= i < |b| && b[i] == a[0];
      var j :| 0 <= j < |a| && a[j] == b[0];
      assert i == 0;
      forall f ensures f in a[1..] <==> f in b[1..] {
        if f in a[1..] {
          var k :| 0 < k < |a| && a[k] == f;
          assert Precedes(a[0], f) && f in b;
        }
        if f in b[1..] {
          var k :| 0 < k < |b| && b[k] == f;
          assert Precedes(b[0], f) && f in a;
        }
      }
      OrderIsUnique(a[1..], b[1..]);
      assert a == [a[0]] + a[1..] && b == [b[0]] + b[1..];
    }
  }

  /** A sorted level whose files are pairwise disjoint is disjoint in order. */
  lemma DisjointInOrder(files: seq<File>)
    requires InOrder(files)
    requires forall f :: f in files ==> FileOk(f)
    requires forall f, g :: f in files && g in files && f != g ==>
               Less(f.largest, g.smallest) || Less(g.largest, f.smallest)
    ensures DisjointSorted(files)
  {
    forall i, j | 0 <= i < j < |files| ensures Less(files[i].largest, files[j].smallest) {
      assert Precedes(files[i], files[j]);
      BoundsInOrder(files[j]);
    }
  }

  // ------------------------------------------------------------ the builder

  /** std::set::insert under BySmallestKey. */
  function InsertInOrder(files: seq<File>, f: File): seq<File> {
    if files == [] || Precedes(f, files[0]) then [f] + files
    else [files[0]] + InsertInOrder(files[1..], f)
  }

  lemma {:induction false} InsertMembers(files: seq<File>, f: File)
    ensures forall g :: g in InsertInOrder(files, f) <==> g in files || g == f
  {
    if files != [] && !Precedes(f, files[0]) {
      InsertMembers(files[1..], f);
      assert files == [files[0]] + files[1..];
    }
  }

  lemma {:induction false} InsertKeepsOrder(files: seq<File>, f: File)
    requires InOrder(files)
    requires forall g :: g in files ==> g.number != f.number
    ensures InOrder(InsertInOrder(files, f))
  {
    if files != [] && !Precedes(f, files[0]) {
      assert forall g :: g in files[1..] ==> g in files;
      InsertKeepsOrder(files[1..], f);
      InsertMembers(files[1..], f);
      PrependInOrder(files[0], InsertInOrder(files[1..], f));
    } else {
      PrependInOrder(f, files);
    }
  }

  /** Any files with distinct numbers, in order. */
  ghost function Ordered(files: set<File>): seq<File> {
    if files == {} then [] else var f :| f in files; InsertInOrder(Ordered(files - {f}), f)
  }

  lemma {:induction false} OrderedIs(files: set<File>)
    requires forall f, g :: f in files && g in files && f.number == g.number ==> f == g
    ensures InOrder(Ordered(files)) && forall f :: f in Ordered(files) <==> f in files
  {
    if files != {} {
      var f :| f in files && Ordered(files) == InsertInOrder(Ordered(files - {f}), f);
      OrderedIs(files - {f});
      InsertKeepsOrder(Ordered(files - {f}), f);
      InsertMembers(Ordered(files - {f}), f);
    }
  }

  lemma PrependInOrder(f: File, files: seq<File>)
    requires InOrder(files)
    requires forall g :: g in files ==> Precedes(f, g)
    ensures InOrder([f] + files)
  {
  }

  ghost function DeletedAt(edit: Edit, level: nat): set<nat> {
    set d | d in edit.deleted && d.0 == level :: d.1
  }

  ghost function FilesAt(added: seq<(nat, File)>, level: nat): set<File> {
    set a | a in added && a.0 == level :: a.1
  }

  ghost function Numbers(files: set<File>): set<nat> {
    set f | f in files :: f.number
  }

  ghost function SetOfFiles(files: seq<File>): set<File> {
    set f | f in files
  }

  /** The levels of an edit exist, and no level is given the same number twice. */
  ghost predicate EditOk(edit: Edit) {
    && (forall d :: d in edit.deleted ==> d.0 < NUM_LEVELS)
    && (forall i :: 0 <= i < |edit.added| ==> edit.added[i].0 < NUM_LEVELS)
    && (forall i, j :: 0 <= i < j < |edit.added| && edit.added[i].0 == edit.added[j].0 ==>
          edit.added[i].1.number != edit.added[j].1.number)
  }

  /** What a builder has accumulated for one level, apart from its base. */
  datatype Pending = Pending(deleted: set<nat>, added: set<File>)

  /** An edit forgets the files it deletes, then remembers the ones it adds --
      also ones an earlier edit deleted. */
  ghost function ApplyAt(p: Pending, edit: Edit, level: nat): Pending {
    var files := FilesAt(edit.added, level);
    Pending(p.deleted + DeletedAt(edit, level) - Numbers(files), p.added + files)
  }

  /** The files a builder saves for one level. */
  ghost predicate Saves(base: seq<File>, p: Pending, f: File) {
    (f in base || f in p.added) && f.number !in p.deleted
  }

  /** `files` is what a builder saves for one level, in order. */
  ghost predicate IsSaved(base: seq<File>, p: Pending, files: seq<File>) {
    InOrder(files) && forall f :: f in files <==> Saves(base, p, f)
  }

  ghost function MergeFiles(base: seq<File>, added: seq<File>): seq<File> {
    if added == [] then base
    else if base == [] || Precedes(added[0], base[0]) then [added[0]] + MergeFiles(base, added[1..])
    else [base[0]] + MergeFiles(base[1..], added)
  }

  ghost function Live(files: seq<File>, deleted: set<nat>): seq<File> {
    if files == [] then []
    else (if files[0].number in deleted then [] else [files[0]]) + Live(files[1..], deleted)
  }

  lemma {:induction false} MergeMembers(base: seq<File>, added: seq<File>, f: File)
    ensures f in MergeFiles(base, added) <==> f in base || f in added
  {
    if added != [] {
      assert added == [added[0]] + added[1..];
      if base == [] || Precedes(added[0], base[0]) {
        MergeMembers(base, added[1..], f);
      } else {
        MergeMembers(base[1..], added, f);
        assert base == [base[0]] + base[1..];
      }
    }
  }

  lemma {:induction false} MergeInOrder(base: seq<File>, added: seq<File>)
    requires InOrder(base) && InOrder(added)
    requires forall f, g :: f in base && g in added ==> f.number != g.number
    ensures InOrder(MergeFiles(base, added))
  {
    if added != [] {
      var first, rest;
      if base == [] || Precedes(added[0], base[0]) {
        first, rest := added[0], MergeFiles(base, added[1..]);
        MergeInOrder(base, added[1..]);
        forall g | g in rest ensures Precedes(first, g) {
          MergeMembers(base, added[1..], g);
        }
      } else {
        first, rest := base[0], MergeFiles(base[1..], added);
        MergeInOrder(base[1..], added);
        forall g | g in rest ensures Precedes(first, g) {
          MergeMembers(base[1..], added, g);
          assert base[0] in base && added[0] in added;
        }
      }
      PrependInOrder(first, rest);
    }
  }

  lemma {:induction false} LiveMembers(files: seq<File>, deleted: set<nat>, f: File)
    ensures f in Live(files, deleted) <==> f in files && f.number !in deleted
  {
    if files != [] {
      LiveMembers(files[1..], deleted, f);
      assert files == [files[0]] + files[1..];
    }
  }

  lemma {:induction false} LiveInOrder(files: seq<File>, deleted: set<nat>)
    requires InOrder(files)
    ensures InOrder(Live(files, deleted))
  {
    if files != [] {
      LiveInOrder(files[1..], deleted);
      forall g | g in Live(files[1..], deleted) ensures Precedes(files[0], g) {
        LiveMembers(files[1..], deleted, g);
      }
      PrependInOrder(files[0], Live(files[1..], deleted));
    }
  }

  /** maybe_add_file. */
  function MaybeAdd(r: seq<File>, f: File, deleted: set<nat>): seq<File> {
    if f.number in deleted then r else r + [f]
  }

  lemma LiveStep(r: seq<File>, f: File, rest: seq<File>, deleted: set<nat>)
    ensures r + Live([f] + rest, deleted) == MaybeAdd(r, f, deleted) + Live(rest, deleted)
  {
    assert ([f] + rest)[1..] == rest;
  }

  lemma MergeStep(base: seq<File>, added: seq<File>, b: nat, a: nat)
    requires b <= |base| && a <= |added|
    ensures a < |added| && b < |base| && !Precedes(added[a], base[b]) ==>
            MergeFiles(base[b..], added[a..]) == [base[b]] + MergeFiles(base[b + 1..], added[a..])
    ensures a < |added| && (b == |base| || Precedes(added[a], base[b])) ==>
            MergeFiles(base[b..], added[a..]) == [added[a]] + MergeFiles(base[b..], added[a + 1..])
  {
    assert b < |base| ==> base[b..][1..] == base[b + 1..];
    assert a < |added| ==> added[a..][1..] == added[a + 1..];
  }

  /** Copies the files of the base from b on that do not come after `next`. */
  method CopyBase(base: seq<File>, from: nat, added: seq<File>, a: nat, deleted: set<nat>, before: seq<File>)
    returns (b: nat, r: seq<File>)
    requires from <= |base| && a < |added|
    ensures from <= b <= |base|
    ensures b < |base| ==> Precedes(added[a], base[b])
    ensures r + Live(MergeFiles(base[b..], added[a..]), deleted) ==
            before + Live(MergeFiles(base[from..], added[a..]), deleted)
  {
    b, r := from, before;
    while b < |base| && !Precedes(added[a], base[b])
      invariant from <= b <= |base|
      invariant r + Live(MergeFiles(base[b..], added[a..]), deleted) ==
                before + Live(MergeFiles(base[from..], added[a..]), deleted)
    {
      MergeStep(base, added, b, a);
      LiveStep(r, base[b], MergeFiles(base[b + 1..], added[a..]), deleted);
      r := MaybeAdd(r, base[b], deleted);
      b := b + 1;
    }
  }

  /** The rest of the base, once every added file is in. */
  method CopyRest(base: seq<File>, from: nat, deleted: set<nat>, before: seq<File>) returns (r: seq<File>)
    requires from <= |base|
    ensures r == before + Live(base[from..], deleted)
  {
    r := before;
    for b := from to |base|
      invariant r + Live(base[b..], deleted) == before + Live(base[from..], deleted)
    {
      assert base[b..] == [base[b]] + base[b + 1..];
      LiveStep(r, base[b], base[b + 1..], deleted);
      r := MaybeAdd(r, base[b], deleted);
    }
    assert base[|base|..] == [];
  }

  /** The inner part of save_to: one level of the base merged with the added
      files, both in order, leaving out the deleted ones. */
  method MergeLevel(base: seq<File>, added: seq<File>, deleted: set<nat>) returns (r: seq<File>)
    requires InOrder(base) && InOrder(added)
    requires forall f, g :: f in base && g in added ==> f.number != g.number
    ensures IsSaved(base, Pending(deleted, SetOfFiles(added)), r)
  {
    r := [];
    var b := 0;
    for a := 0 to |added|
      invariant 0 <= b <= |base|
      invariant r + Live(MergeFiles(base[b..], added[a..]), deleted) == Live(MergeFiles(base, added), deleted)
    {
      b, r := CopyBase(base, b, added, a, deleted, r);
      MergeStep(base, added, b, a);
      LiveStep(r, added[a], MergeFiles(base[b..], added[a + 1..]), deleted);
      r := MaybeAdd(r, added[a], deleted);
    }
    r := CopyRest(base, b, deleted, r);
    MergedLevel(base, added, deleted);
  }

  lemma MergedLevel(base: seq<File>, added: seq<File>, deleted: set<nat>)
    requires InOrder(base) && InOrder(added)
    requires forall f, g :: f in base && g in added ==> f.number != g.number
    ensures IsSaved(base, Pending(deleted, SetOfFiles(added)), Live(MergeFiles(base, added), deleted))
  {
    MergeInOrder(base, added);
    LiveInOrder(MergeFiles(base, added), deleted);
    forall f ensures f in Live(MergeFiles(base, added), deleted) <==>
        Saves(base, Pending(deleted, SetOfFiles(added)), f) {
      MergeMembers(base, added, f);
      LiveMembers(MergeFiles(base, added), deleted, f);
    }
  }

  ghost function AddPrefix(p: Pending, added: seq<(nat, File)>, level: nat, i: nat): Pending
    requires i <= |added|
  {
    var files := FilesAt(added[..i], level);
    Pending(p.deleted - Numbers(files), p.added + files)
  }

  lemma AddPrefixStep(p: Pending, added: seq<(nat, File)>, level: nat, i: nat)
    requires i < |added|
    ensures var q := AddPrefix(p, added, level, i);
            AddPrefix(p, added, level, i + 1) ==
            if added[i].0 == level then Pending(q.deleted - {added[i].1.number}, q.added + {added[i].1}) else q
  {
    var before, after := FilesAt(added[..i], level), FilesAt(added[..i + 1], level);
    assert added[..i + 1] == added[..i] + [added[i]];
    if added[i].0 == level {
      assert added[i] in added[..i + 1];
      assert after == before + {added[i].1};
      assert Numbers(after) == Numbers(before) + {added[i].1.number};
    } else {
      assert after == before;
    }
  }

  /** A file of the prefix has a number other than the next file's. */
  lemma NextNumberIsNew(edit: Edit, level: nat, i: nat, f: File)
    requires EditOk(edit) && i < |edit.added| && edit.added[i].0 == level
    requires f in FilesAt(edit.added[..i], level)
    ensures f.number != edit.added[i].1.number
  {
    var a :| a in edit.added[..i] && a.0 == level && a.1 == f;
    var k :| 0 <= k < i && edit.added[k] == a;
  }

  class Builder {
    const base: Version
    var deleted: seq<set<nat>>
    var added: seq<seq<File>>

    ghost predicate Valid()
      reads this
    {
      && |base| == |deleted| == |added| == NUM_LEVELS
      && (forall l :: 0 <= l < NUM_LEVELS ==> InOrder(base[l]) && InOrder(added[l]))
    }

    ghost function At(level: nat): Pending
      reads this
      requires Valid() && level < NUM_LEVELS
    {
      Pending(deleted[level], SetOfFiles(added[level]))
    }

    constructor (base: Version)
      requires |base| == NUM_LEVELS
      requires forall l :: 0 <= l < NUM_LEVELS ==> InOrder(base[l])
      ensures Valid() && this.base == base
      ensures forall l :: 0 <= l < NUM_LEVELS ==> deleted[l] == {} && added[l] == []
    {
      this.base := base;
      deleted := seq(NUM_LEVELS, _ => {});
      added := seq(NUM_LEVELS, _ => []);
    }

    /** The first loop of Builder::apply over files. */
    method ApplyDeletions(edit: Edit)
      requires Valid() && EditOk(edit)
      modifies this`deleted
      ensures Valid()
      ensures forall l :: 0 <= l < NUM_LEVELS ==> deleted[l] == old(deleted[l]) + DeletedAt(edit, l)
    {
      var todo := edit.deleted;
      while todo != {}
        invariant todo <= edit.deleted && Valid()
        invariant forall l, n :: 0 <= l < NUM_LEVELS ==>
                    (n in deleted[l] <==> n in old(deleted[l]) || ((l, n) in edit.deleted && (l, n) !in todo))
        decreases todo
      {
        var d :| d in todo;
        deleted := deleted[d.0 := deleted[d.0] + {d.1}];
        todo := todo - {d};
      }
    }

    /** The second loop: an added file is taken off the deleted ones. */
    method ApplyAdditions(edit: Edit)
      requires Valid() && EditOk(edit)
      requires forall l, f, g {:trigger f in added[l], g in FilesAt(edit.added, l)} ::
                 0 <= l < NUM_LEVELS && f in added[l] && g in FilesAt(edit.added, l) ==> f.number != g.number
      modifies this
      ensures Valid()
      ensures forall l :: 0 <= l < NUM_LEVELS ==> At(l) == AddPrefix(old(At(l)), edit.added, l, |edit.added|)
    {
      for i := 0 to |edit.added|
        invariant Valid()
        invariant forall l :: 0 <= l < NUM_LEVELS ==> At(l) == AddPrefix(old(At(l)), edit.added, l, i)
      {
        var level, file := edit.added[i].0, edit.added[i].1;
        forall g | g in added[level] ensures g.number != file.number {
          assert g in At(level).added;
          if g in FilesAt(edit.added[..i], level) {
            NextNumberIsNew(edit, level, i, g);
          } else {
            assert g in old(added[level]);
            assert edit.added[i] in edit.added && file in FilesAt(edit.added, level);
          }
        }
        InsertMembers(added[level], file);
        InsertKeepsOrder(added[level], file);
        deleted := deleted[level := deleted[level] - {file.number}];
        added := added[level := InsertInOrder(added[level], file)];
        forall l | 0 <= l < NUM_LEVELS ensures At(l) == AddPrefix(old(At(l)), edit.added, l, i + 1) {
          AddPrefixStep(old(At(l)), edit.added, l, i);
        }
      }
    }

    /** Builder::apply. */
    method Apply(edit: Edit)
      requires Valid() && EditOk(edit)
      requires forall l, f, g {:trigger f in added[l], g in FilesAt(edit.added, l)} ::
                 0 <= l < NUM_LEVELS && f in added[l] && g in FilesAt(edit.added, l) ==> f.number != g.number
      modifies this
      ensures Valid()
      ensures forall l :: 0 <= l < NUM_LEVELS ==> At(l) == ApplyAt(old(At(l)), edit, l)
    {
      ApplyDeletions(edit);
      ApplyAdditions(edit);
      assert edit.added[..|edit.added|] == edit.added;
    }

    /** Builder::save_to. */
    method SaveTo() returns (v: Version)
      requires Valid()
      requires forall l, f, g {:trigger f in base[l], g in added[l]} ::
                 0 <= l < NUM_LEVELS && f in base[l] && g in added[l] ==> f.number != g.number
      ensures |v| == NUM_LEVELS
      ensures forall l :: 0 <= l < NUM_LEVELS ==> IsSaved(base[l], At(l), v[l])
    {
      v := [];
      for l := 0 to NUM_LEVELS
        invariant |v| == l
        invariant forall m :: 0 <= m < l ==> IsSaved(base[m], At(m), v[m])
      {
        var files := MergeLevel(base[l], added[l], deleted[l]);
        v := v + [files];
      }
    }
  }

  // ---------------------------------------------------- manifest replay

  /** Installing one edit through a builder of its own (the in-memory part of
      log_and_apply): every level of the next version, as a set in order. */
  ghost predicate Installed(v: Version, edit: Edit, v': Version) {
    && |v| == |v'| == NUM_LEVELS
    && forall l :: 0 <= l < NUM_LEVELS ==> IsSaved(v[l], ApplyAt(Pending({}, {}), edit, l), v'[l])
  }

  /** No file number of the edit was added to the level before. */
  ghost predicate NewTo(edit: Edit, level: nat, seen: set<nat>) {
    Numbers(FilesAt(edit.added, level)) !! seen
  }

  /** One more edit in the shared builder is one more installed version. */
  lemma ReplayStep(v: Version, p: Pending, edit: Edit, v': Version, level: nat)
    requires level < NUM_LEVELS && Installed(v, edit, v')
    requires IsSaved([], p, v[level])
    requires NewTo(edit, level, Numbers(p.added))
    ensures IsSaved([], ApplyAt(p, edit, level), v'[level])
  {
    var q := ApplyAt(p, edit, level);
    var files := FilesAt(edit.added, level);
    forall f ensures f in v'[level] <==> Saves([], q, f) {
      assert f in v'[level] <==> Saves(v[level], ApplyAt(Pending({}, {}), edit, level), f);
      assert f in files ==> f.number in Numbers(files);
      assert f in p.added ==> f.number in Numbers(p.added);
    }
  }

  /** Everything a manifest holds: the edits after the snapshot, and the
      versions the live set went through. */
  ghost predicate IsHistory(versions: seq<Version>, edits: seq<Edit>) {
    && |versions| == |edits| + 1
    && (forall l :: 0 <= l < NUM_LEVELS == |versions[0]| ==> InOrder(versions[0][l]))
    && forall i :: 0 <= i < |edits| ==> Installed(versions[i], edits[i], versions[i + 1])
  }

  /** write_snapshot: an edit that adds every file of the current version. */
  ghost predicate IsSnapshot(edit: Edit, v: Version)
    requires |v| == NUM_LEVELS
  {
    edit.deleted == {} && forall l :: 0 <= l < NUM_LEVELS ==> FilesAt(edit.added, l) == SetOfFiles(v[l])
  }

  /** What the shared builder of recovery has accumulated after n edits. */
  ghost function ReplayAt(snapshot: Edit, edits: seq<Edit>, level: nat, n: nat): Pending
    requires n <= |edits|
  {
    if n == 0 then ApplyAt(Pending({}, {}), snapshot, level)
    else ApplyAt(ReplayAt(snapshot, edits, level, n - 1), edits[n - 1], level)
  }

  ghost predicate NeverReadded(snapshot: Edit, edits: seq<Edit>) {
    forall n, l :: 0 <= n < |edits| && 0 <= l < NUM_LEVELS ==>
      NewTo(edits[n], l, Numbers(ReplayAt(snapshot, edits, l, n).added))
  }

  lemma {:induction false} ReplayAgreesAt(versions: seq<Version>, snapshot: Edit, edits: seq<Edit>, level: nat, n: nat)
    requires IsHistory(versions, edits) && |versions[0]| == NUM_LEVELS && IsSnapshot(snapshot, versions[0])
    requires NeverReadded(snapshot, edits)
    requires level < NUM_LEVELS && n <= |edits|
    ensures |versions[n]| == NUM_LEVELS
    ensures IsSaved([], ReplayAt(snapshot, edits, level, n), versions[n][level])
  {
    if n == 0 {
      assert DeletedAt(snapshot, level) == {};
    } else {
      ReplayAgreesAt(versions, snapshot, edits, level, n - 1);
      ReplayStep(versions[n - 1], ReplayAt(snapshot, edits, level, n - 1), edits[n - 1], versions[n], level);
    }
  }

  /** Replaying a snapshot and every later edit in one builder, then saving
      once, gives back the version the live set had installed. */
  lemma ReplayAgrees(versions: seq<Version>, snapshot: Edit, edits: seq<Edit>, recovered: Version)
    requires IsHistory(versions, edits) && |versions[0]| == NUM_LEVELS && IsSnapshot(snapshot, versions[0])
    requires NeverReadded(snapshot, edits)
    requires |recovered| == NUM_LEVELS
    requires forall l :: 0 <= l < NUM_LEVELS ==> IsSaved([], ReplayAt(snapshot, edits, l, |edits|), recovered[l])
    ensures recovered == versions[|edits|]
  {
    var live := versions[|edits|];
    ReplayAgreesAt(versions, snapshot, edits, 0, |edits|);
    forall l | 0 <= l < NUM_LEVELS ensures recovered[l] == live[l] {
      ReplayAgreesAt(versions, snapshot, edits, l, |edits|);
      OrderIsUnique(recovered[l], live[l]);
    }
  }

  /** The next version holds what the edit adds, and of the rest what it does
      not delete. */
  lemma InstalledIs(v: Version, edit: Edit, v': Version, l: nat, f: File)
    requires Installed(v, edit, v') && l < NUM_LEVELS
    requires forall g, h :: g in v[l] && h in FilesAt(edit.added, l) ==> g.number != h.number
    ensures f in v'[l] <==> (l, f) in edit.added || (f in v[l] && (l, f.number) !in edit.deleted)
  {
    var p, files := ApplyAt(Pending({}, {}), edit, l), FilesAt(edit.added, l);
    assert f in v'[l] <==> Saves(v[l], p, f);
    assert (l, f) in edit.added <==> f in files;
    assert f in files ==> f.number in Numbers(files);
    assert (l, f.number) in edit.deleted <==> f.number in DeletedAt(edit, l);
  }

  /** The in-memory part of log_and_apply. */
  method InstallEdit(v: Version, edit: Edit) returns (v': Version)
    requires |v| == NUM_LEVELS && EditOk(edit)
    requires forall l :: 0 <= l < NUM_LEVELS ==> InOrder(v[l])
    requires forall l, f, g {:trigger f in v[l], g in FilesAt(edit.added, l)} ::
               0 <= l < NUM_LEVELS && f in v[l] && g in FilesAt(edit.added, l) ==> f.number != g.number
    ensures Installed(v, edit, v')
    ensures forall l, f :: 0 <= l < NUM_LEVELS ==>
              (f in v'[l] <==> (l, f) in edit.added || (f in v[l] && (l, f.number) !in edit.deleted))
  {
    var builder := new Builder(v);
    builder.Apply(edit);
    forall l, f, g | 0 <= l < NUM_LEVELS && f in v[l] && g in builder.added[l] ensures f.number != g.number {
      assert g in builder.At(l).added;
    }
    v' := builder.SaveTo();
    forall l, f | 0 <= l < NUM_LEVELS
      ensures f in v'[l] <==> (l, f) in edit.added || (f in v[l] && (l, f.number) !in edit.deleted)
    {
      InstalledIs(v, edit, v', l, f);
    }
  }

  // -------------------------------------------------------------- recovery

  datatype Field = Log | PrevLog | NextFile | LastSequence

  function Get(h: Header, field: Field): Option<nat> {
    match field
    case Log => h.log
    case PrevLog => h.prevLog
    case NextFile => h.nextFile
    case LastSequence => h.lastSequence
  }

  /** The value in the last record that carries one, if any does. */
  ghost predicate IsLatest(edits: seq<Edit>, field: Field, x: Option<nat>) {
    if x.Some? then
      exists n :: 0 <= n < |edits| && Get(edits[n].header, field) == x &&
        forall m :: n < m < |edits| ==> Get(edits[m].header, field).None?
    else
      forall n :: 0 <= n < |edits| ==> Get(edits[n].header, field).None?
  }

  lemma LatestNext(edits: seq<Edit>, field: Field, x: Option<nat>, edit: Edit)
    requires IsLatest(edits, field, x)
    ensures var y := Get(edit.header, field); IsLatest(edits + [edit], field, if y.Some? then y else x)
  {
    var more, y := edits + [edit], Get(edit.header, field);
    assert forall m :: 0 <= m < |edits| ==> more[m] == edits[m];
    if y.Some? {
      assert more[|edits|] == edit;
    } else if x.Some? {
      var n :| 0 <= n < |edits| && Get(edits[n].header, field) == x &&
        forall m :: n < m < |edits| ==> Get(edits[m].header, field).None?;
      assert Get(more[n].header, field) == x;
    }
  }

  /** Every field of a header is the latest. */
  ghost predicate AllLatest(edits: seq<Edit>, h: Header) {
    forall field: Field :: IsLatest(edits, field, Get(h, field))
  }

  /** The loop's own header: the latest of every field. */
  function Newer(h: Header, e: Header): Header {
    Header(h.comparator,
           if e.log.Some? then e.log else h.log,
           if e.prevLog.Some? then e.prevLog else h.prevLog,
           if e.nextFile.Some? then e.nextFile else h.nextFile,
           if e.lastSequence.Some? then e.lastSequence else h.lastSequence)
  }

  lemma AllLatestNext(edits: seq<Edit>, h: Header, edit: Edit)
    requires AllLatest(edits, h)
    ensures AllLatest(edits + [edit], Newer(h, edit.header))
  {
    forall field: Field ensures IsLatest(edits + [edit], field, Get(Newer(h, edit.header), field)) {
      LatestNext(edits, field, Get(h, field), edit);
    }
  }

  predicate SameOrder(e: Edit, comparator: string) {
    e.header.comparator.Some? ==> e.header.comparator.value == comparator
  }

  datatype Recovery =
    | Opened(version: Version, log: nat, prevLog: nat, lastSequence: nat, manifest: nat, nextFile: nat)
    | OtherComparator
    | Missing

  /** The numbers are the last ones carried.  The fresh manifest takes the next
      file number, or a higher one if the old manifest has that. */
  ghost predicate NumbersOk(edits: seq<Edit>, own: Option<nat>, r: Recovery)
    requires r.Opened?
  {
    && IsLatest(edits, Log, Some(r.log)) && IsLatest(edits, LastSequence, Some(r.lastSequence))
    && (IsLatest(edits, PrevLog, Some(r.prevLog)) || (r.prevLog == 0 && IsLatest(edits, PrevLog, None)))
    && (exists next: nat :: IsLatest(edits, NextFile, Some(next)) && next <= r.manifest &&
          (next < r.manifest ==> own == Some(r.manifest - 1)))
    && r.nextFile == r.manifest + 1 && (own.Some? ==> own.value < r.manifest)
  }

  /** VersionSet::recover, on the records of the manifest numbered `own`: all in
      a single builder, saved once.  It is refused if and only if a record
      names another order or no record carries a number it needs. */
  method Recover(snapshot: Edit, edits: seq<Edit>, comparator: string, own: Option<nat>, ghost versions: seq<Version>)
    returns (r: Recovery)
    requires EditOk(snapshot) && forall n :: 0 <= n < |edits| ==> EditOk(edits[n])
    requires IsHistory(versions, edits) && |versions[0]| == NUM_LEVELS && IsSnapshot(snapshot, versions[0])
    requires NeverReadded(snapshot, edits)
    ensures r.OtherComparator? <==> exists e :: e in [snapshot] + edits && !SameOrder(e, comparator)
    ensures r.Missing? ==> exists field: Field :: !field.PrevLog? && IsLatest([snapshot] + edits, field, None)
    ensures r.Opened? ==> r.version == versions[|edits|] && NumbersOk([snapshot] + edits, own, r)
  {
    ghost var all := [snapshot] + edits;
    var builder := new Builder([[], [], [], [], [], [], []]);
    var h := PLAIN;
    if !SameOrder(snapshot, comparator) {
      assert snapshot in all;
      return OtherComparator;
    }
    builder.Apply(snapshot);
    AllLatestNext([], h, snapshot);
    h := Newer(h, snapshot.header);
    assert [] + [snapshot] == all[..1];
    for n := 0 to |edits|
      invariant builder.Valid() && fresh(builder) && forall l :: 0 <= l < NUM_LEVELS ==> builder.base[l] == []
      invariant forall l :: 0 <= l < NUM_LEVELS ==> builder.At(l) == ReplayAt(snapshot, edits, l, n)
      invariant AllLatest(all[..n + 1], h)
      invariant forall m :: 0 <= m <= n ==> SameOrder(all[m], comparator)
    {
      if !SameOrder(edits[n], comparator) {
        assert all[n + 1] == edits[n] && edits[n] in all;
        return OtherComparator;
      }
      AppliesNext(snapshot, edits, builder, n);
      builder.Apply(edits[n]);
      AllLatestNext(all[..n + 1], h, edits[n]);
      assert all[..n + 1] + [edits[n]] == all[..n + 2];
      h := Newer(h, edits[n].header);
    }
    assert all[..|edits| + 1] == all;
    var v := builder.SaveTo();
    ReplayAgrees(versions, snapshot, edits, v);
    r := Numbered(all, h, own, v);
  }

  lemma AppliesNext(snapshot: Edit, edits: seq<Edit>, builder: Builder, n: nat)
    requires NeverReadded(snapshot, edits) && n < |edits| && builder.Valid()
    requires forall l :: 0 <= l < NUM_LEVELS ==> builder.At(l) == ReplayAt(snapshot, edits, l, n)
    ensures forall l, f, g {:trigger f in builder.added[l], g in FilesAt(edits[n].added, l)} ::
              0 <= l < NUM_LEVELS && f in builder.added[l] && g in FilesAt(edits[n].added, l) ==> f.number != g.number
  {
    forall l, f, g | 0 <= l < NUM_LEVELS && f in builder.added[l] && g in FilesAt(edits[n].added, l)
      ensures f.number != g.number
    {
      assert f in builder.At(l).added && NewTo(edits[n], l, Numbers(ReplayAt(snapshot, edits, l, n).added));
      assert f.number in Numbers(ReplayAt(snapshot, edits, l, n).added) &&
          g.number in Numbers(FilesAt(edits[n].added, l));
    }
  }

  /** The end of recovery: the numbers, if all are there. */
  method Numbered(ghost all: seq<Edit>, h: Header, own: Option<nat>, v: Version) returns (r: Recovery)
    requires AllLatest(all, h)
    ensures r.Missing? ==> exists field: Field :: !field.PrevLog? && IsLatest(all, field, None)
    ensures !r.OtherComparator?
    ensures r.Opened? ==> r.version == v && NumbersOk(all, own, r)
  {
    assert IsLatest(all, Log, Get(h, Log)) && IsLatest(all, PrevLog, Get(h, PrevLog));
    assert IsLatest(all, NextFile, Get(h, NextFile)) && IsLatest(all, LastSequence, Get(h, LastSequence));
    if h.nextFile.None? || h.log.None? || h.lastSequence.None? {
      return Missing;
    }
    var prevLog := if h.prevLog.Some? then h.prevLog.value else 0;
    var manifest := h.nextFile.value;
    if own.Some? && manifest <= own.value {
      manifest := own.value + 1;
    }
    r := Opened(v, h.log.value, prevLog, h.lastSequence.value, manifest, manifest + 1);
  }
}
